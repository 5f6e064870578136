/**
 The checks `sort_layers` makes before it sorts: they pass exactly if the siblings form one
 chain.
 */
module LayerChecks {
  import opened Common
  import opened LayerOrder

  // ----- The checks -----

  /** What the loop over the unsorted siblings checks. */
  ghost predicate PassesChecks(s: seq<Layer>) {
    && DistinctUids(s)
    && DistinctAfters(s)
    && (forall l :: l in s ==> WalkEnds(s, l))
    && (forall l :: l in s && l.after.Some? ==> l.after.value in UidSet(s))
  }

  ghost predicate DistinctAfters(s: seq<Layer>) {
    forall i, j :: 0 <= i < j < |s| ==> s[i].after != s[j].after
  }

  lemma SameUid(s: seq<Layer>, k: Layer, l: Layer)
    requires DistinctUids(s) && k in s && l in s && k.uid == l.uid
    ensures k == l
  {
    var i :| 0 <= i < |s| && s[i] == k;
    var j :| 0 <= j < |s| && s[j] == l;
  }

  lemma SameAfter(s: seq<Layer>, k: Layer, l: Layer)
    requires DistinctAfters(s) && k in s && l in s && k.after == l.after
    ensures k == l
  {
    var i :| 0 <= i < |s| && s[i] == k;
    var j :| 0 <= j < |s| && s[j] == l;
  }

  /** A chain over some of the siblings. */
  ghost predicate PartialChain(s: seq<Layer>, c: seq<Layer>) {
    IsChain(c) && forall l :: l in c ==> l in s
  }

  /** The sibling that continues the chain. */
  ghost predicate Continues(c: seq<Layer>, l: Layer) {
    l.after == if c == [] then None else Some(c[|c| - 1].uid)
  }

  lemma ChainExtend(s: seq<Layer>, c: seq<Layer>, l: Layer)
    requires DistinctUids(s) && PartialChain(s, c) && l in s && l !in c && Continues(c, l)
    ensures PartialChain(s, c + [l])
  {
    var d := c + [l];
    forall i | 0 <= i < |d|
      ensures LinkedAt(d, i)
    {
      assert i < |c| ==> LinkedAt(c, i);
    }
    forall i | 0 <= i < |c|
      ensures c[i].uid != l.uid
    {
      assert c[i] in c;
      if c[i].uid == l.uid { SameUid(s, c[i], l); }
    }
  }

  ghost predicate Outside(s: seq<Layer>, c: seq<Layer>, l: Layer) {
    l in s && l !in c
  }

  ghost predicate Stuck(s: seq<Layer>, c: seq<Layer>) {
    forall k :: Outside(s, c, k) ==> !Continues(c, k)
  }

  /** A sibling that comes after nothing, or after an element of the chain, is in the chain
      or continues it. */
  lemma InsideOrNext(s: seq<Layer>, c: seq<Layer>, l: Layer)
    requires DistinctAfters(s) && PartialChain(s, c) && l in s
    requires l.after.None? || (Prev(s, l).Some? && Prev(s, l).value in c)
    ensures l in c || Continues(c, l)
  {
    if l.after.None? {
      if c != [] {
        assert c[0] in c && LinkedAt(c, 0);
        SameAfter(s, c[0], l);
      }
    } else {
      var i :| 0 <= i < |c| && c[i] == Prev(s, l).value;
      if i + 1 < |c| {
        assert LinkedAt(c, i + 1) && c[i + 1] in c;
        SameAfter(s, c[i + 1], l);
      }
    }
  }

  /** If nothing continues the chain, stepping back from a sibling outside it stays outside. */
  lemma BackStaysOutside(s: seq<Layer>, c: seq<Layer>, l: Layer)
    requires PassesChecks(s) && PartialChain(s, c) && Stuck(s, c) && Outside(s, c, l)
    ensures Prev(s, l).Some? && Outside(s, c, Prev(s, l).value)
  {
    if l.after.None? || Prev(s, l).value in c {
      InsideOrNext(s, c, l);
    }
  }

  ghost predicate BackClosed(s: seq<Layer>, c: seq<Layer>) {
    forall k {:trigger Prev(s, k)} :: Outside(s, c, k) ==> Prev(s, k).Some? && Outside(s, c, Prev(s, k).value)
  }

  lemma {:induction false} WalkStaysOutside(s: seq<Layer>, c: seq<Layer>, l: Layer, w: seq<Layer>, i: nat)
    requires BackClosed(s, c) && Outside(s, c, l) && IsWalk(s, l, w) && i < |w|
    ensures Outside(s, c, w[i]) && Prev(s, w[i]).Some?
  {
    if i > 0 {
      WalkStaysOutside(s, c, l, w, i - 1);
      assert StepBack(s, w, i);
    }
  }

  lemma OutsideNeverEnds(s: seq<Layer>, c: seq<Layer>, l: Layer)
    requires BackClosed(s, c) && Outside(s, c, l)
    ensures !WalkEnds(s, l)
  {
    forall w | IsWalk(s, l, w)
      ensures Prev(s, w[|w| - 1]).Some?
    {
      WalkStaysOutside(s, c, l, w, |w| - 1);
    }
  }

  lemma SomethingContinues(s: seq<Layer>, c: seq<Layer>, l: Layer)
    requires PassesChecks(s) && PartialChain(s, c) && Outside(s, c, l)
    ensures !Stuck(s, c)
  {
    if Stuck(s, c) {
      forall k | Outside(s, c, k)
        ensures Prev(s, k).Some? && Outside(s, c, Prev(s, k).value)
      {
        BackStaysOutside(s, c, k);
      }
      OutsideNeverEnds(s, c, l);
    }
  }

  lemma SubsetPermutation<T>(s: seq<T>, c: seq<T>)
    requires Distinct(s) && Distinct(c)
    requires forall x :: x in c <==> x in s
    ensures multiset(c) == multiset(s)
  {
    forall x
      ensures multiset(c)[x] == multiset(s)[x]
    {
      DistinctMultiplicity(s, x);
      DistinctMultiplicity(c, x);
      assert x in c <==> multiset(c)[x] > 0;
      assert x in s <==> multiset(s)[x] > 0;
    }
  }

  /** A partial chain grows until it takes in every sibling. */
  lemma {:induction false} ChainExists(s: seq<Layer>, c: seq<Layer>)
    requires PassesChecks(s) && PartialChain(s, c)
    ensures Sortable(s)
    decreases UidSet(s) - UidSet(c)
  {
    if l :| l in s && l !in c {
      SomethingContinues(s, c, l);
      var k :| Outside(s, c, k) && Continues(c, k);
      ChainExtend(s, c, k);
      UidSetAppend(c, k);
      assert k.uid in UidSet(s);
      assert k.uid !in UidSet(c) by {
        if j :| j in c && j.uid == k.uid { SameUid(s, j, k); }
      }
      ChainExists(s, c + [k]);
    } else {
      ChainDistinct(c);
      SubsetPermutation(s, c);
      assert ChainOf(c, s);
    }
  }

  // ----- A chain passes the checks -----

  lemma ChainUids(c: seq<Layer>, s: seq<Layer>)
    requires ChainOf(c, s)
    ensures DistinctUids(s) && DistinctAfters(s)
  {
    ChainDistinct(c);
    DistinctPermutation(c, s);
    forall i, j | 0 <= i < j < |s|
      ensures s[i].uid != s[j].uid && s[i].after != s[j].after
    {
      assert s[i] in s && s[j] in s;
      SameElements(c, s, s[i]);
      SameElements(c, s, s[j]);
      var a :| 0 <= a < |c| && c[a] == s[i];
      var b :| 0 <= b < |c| && c[b] == s[j];
      assert a != b && LinkedAt(c, a) && LinkedAt(c, b);
    }
  }

  lemma ChainPrev(c: seq<Layer>, s: seq<Layer>, i: nat)
    requires ChainOf(c, s) && i < |c|
    ensures c[i] in s
    ensures Prev(s, c[i]) == if i == 0 then None else Some(c[i - 1])
    ensures c[i].after.Some? ==> c[i].after.value in UidSet(s)
  {
    ChainUids(c, s);
    assert c[i] in c && LinkedAt(c, i);
    SameElements(c, s, c[i]);
    if i > 0 {
      assert c[i - 1] in c;
      SameElements(c, s, c[i - 1]);
      FindUnique(s, c[i - 1]);
    }
  }

  lemma {:induction false} ChainWalk(c: seq<Layer>, s: seq<Layer>, i: nat, w: seq<Layer>, k: nat)
    requires ChainOf(c, s) && i < |c| && IsWalk(s, c[i], w) && k < |w|
    ensures k <= i && w[k] == c[i - k]
  {
    if k > 0 {
      ChainWalk(c, s, i, w, k - 1);
      assert StepBack(s, w, k);
      ChainPrev(c, s, i - (k - 1));
    }
  }

  lemma ChainNeverRevisits(c: seq<Layer>, s: seq<Layer>, l: Layer)
    requires ChainOf(c, s) && l in s
    ensures !Revisits(s, l)
  {
    SameElements(c, s, l);
    var i :| 0 <= i < |c| && c[i] == l;
    forall w | IsWalk(s, l, w)
      ensures DistinctUids(w)
    {
      forall k | 0 <= k < |w|
        ensures k <= i && w[k] == c[i - k]
      {
        ChainWalk(c, s, i, w, k);
      }
    }
  }

  lemma {:induction false} ChainWalkEnds(c: seq<Layer>, s: seq<Layer>, i: nat) returns (w: seq<Layer>)
    requires ChainOf(c, s) && i < |c|
    ensures IsWalk(s, c[i], w) && Prev(s, w[|w| - 1]).None?
  {
    ChainPrev(c, s, i);
    w := [c[i]];
    if i > 0 {
      var v := ChainWalkEnds(c, s, i - 1);
      w := [c[i]] + v;
      forall k | 0 < k < |w|
        ensures StepBack(s, w, k)
      {
        assert k > 1 ==> StepBack(s, v, k - 1);
      }
    }
  }

  /** Siblings form a chain exactly when their uids are distinct, no two come after the same
      one, every named predecessor is a sibling and walking back always ends. */
  lemma ChecksDecide(s: seq<Layer>)
    ensures Sortable(s) <==> PassesChecks(s)
  {
    if c :| ChainOf(c, s) {
      ChainUids(c, s);
      forall l | l in s
        ensures WalkEnds(s, l) && (l.after.Some? ==> l.after.value in UidSet(s))
      {
        SameElements(c, s, l);
        var i :| 0 <= i < |c| && c[i] == l;
        ChainPrev(c, s, i);
        var w := ChainWalkEnds(c, s, i);
      }
    }
    if PassesChecks(s) {
      ChainExists(s, []);
    }
  }
}
