/**
 `sort_layers`: the loop that puts siblings in order by moving a misplaced successor next to
 its predecessor, and what it returns.
 */
module LayerSort {
  import opened Common
  import opened LayerOrder
  import opened LayerChecks
  import opened LayerMoves

  // ----- The stored order as a permutation of the chain -----

  ghost predicate Arranged(s: seq<Layer>, c: seq<Layer>, p: seq<int>) {
    && |s| == |c| == |p| && IsPerm(p)
    && forall i :: 0 <= i < |s| ==> s[i] == c[p[i]]
  }

  lemma IndexIn(c: seq<Layer>, s: seq<Layer>, i: nat) returns (k: int)
    requires ChainOf(c, s) && i < |s|
    ensures 0 <= k < |c| && s[i] == c[k]
  {
    assert s[i] in s;
    SameElements(c, s, s[i]);
    k :| 0 <= k < |c| && c[k] == s[i];
  }

  lemma {:induction false} Arrangement(c: seq<Layer>, s: seq<Layer>, n: nat) returns (p: seq<int>)
    requires ChainOf(c, s) && n <= |s|
    ensures |p| == n && forall i :: 0 <= i < n ==> 0 <= p[i] < |c| && s[i] == c[p[i]]
  {
    p := [];
    if n > 0 {
      p := Arrangement(c, s, n - 1);
      var k := IndexIn(c, s, n - 1);
      p := p + [k];
    }
  }

  lemma ArrangementIsPerm(c: seq<Layer>, s: seq<Layer>, p: seq<int>)
    requires ChainOf(c, s) && |p| == |s|
    requires forall i :: 0 <= i < |s| ==> 0 <= p[i] < |c| && s[i] == c[p[i]]
    ensures Arranged(s, c, p)
  {
    ChainLength(c, s);
    ChainDistinct(c);
    DistinctPermutation(c, s);
    forall v | 0 <= v < |p|
      ensures v in p
    {
      assert c[v] in c;
      SameElements(c, s, c[v]);
      var i :| 0 <= i < |s| && s[i] == c[v];
      assert p[i] == v;
    }
  }

  /** Naming a predecessor is being next in the chain. */
  lemma AfterIsNext(s: seq<Layer>, c: seq<Layer>, p: seq<int>, o: int, i: int)
    requires Arranged(s, c, p) && IsChain(c) && 0 <= o < |s| && 0 <= i < |s|
    ensures s[i].after == Some(s[o].uid) <==> p[i] == p[o] + 1
  {
    assert LinkedAt(c, p[i]);
  }

  lemma SwapMultiset<T>(s: seq<T>, i: int, j: int)
    requires 0 <= i < |s| && 0 <= j < |s|
    ensures multiset(Swapped(s, i, j)) == multiset(s)
  {
  }

  lemma TakeOutMultiset<T>(s: seq<T>, i: int)
    requires 0 <= i < |s|
    ensures multiset(s[..i] + s[i + 1..] + [s[i]]) == multiset(s)
  {
    assert s == s[..i] + [s[i]] + s[i + 1..];
    assert multiset(s) == multiset(s[..i]) + multiset([s[i]]) + multiset(s[i + 1..]);
  }

  lemma MoveMultiset<T>(s: seq<T>, o: int, i: int)
    requires 0 <= o < |s| && 0 <= i < |s|
    ensures multiset(Move(s, o, i)) == multiset(s)
  {
    if o + 1 == |s| {
      TakeOutMultiset(s, i);
    } else {
      SwapMultiset(s, o + 1, i);
    }
  }

  /** The index an element is taken from by a move. */
  ghost function TakenFrom(n: int, o: int, i: int, k: int): int {
    if o + 1 == n then (if k < i then k else if k < n - 1 then k + 1 else i)
    else if k == i then o + 1 else if k == o + 1 then i else k
  }

  lemma MoveAt<T>(s: seq<T>, o: int, i: int, k: int)
    requires 0 <= o < |s| && 0 <= i < |s| && 0 <= k < |s|
    ensures |Move(s, o, i)| == |s| && 0 <= TakenFrom(|s|, o, i, k) < |s|
    ensures Move(s, o, i)[k] == s[TakenFrom(|s|, o, i, k)]
  {
  }

  lemma MoveArranged(s: seq<Layer>, c: seq<Layer>, p: seq<int>, o: int, i: int)
    requires Arranged(s, c, p) && 0 <= o < |s| && 0 <= i < |s| && IsPerm(Move(p, o, i))
    ensures Arranged(Move(s, o, i), c, Move(p, o, i))
  {
    MoveAt(s, o, i, o);
    MoveAt(p, o, i, o);
    forall k | 0 <= k < |s|
      ensures Move(s, o, i)[k] == c[Move(p, o, i)[k]]
    {
      MoveAt(s, o, i, k);
      MoveAt(p, o, i, k);
    }
  }

  /** With nothing misplaced the siblings are in chain order. */
  lemma Settled(s: seq<Layer>, c: seq<Layer>, p: seq<int>)
    requires Arranged(s, c, p) && GoodUpTo(p, |p|)
    ensures s == c
  {
    forall j | 0 <= j < |s|
      ensures s[j] == c[j]
    {
      AllGoodIsIdentity(p, j);
    }
  }

  // ----- The code -----

  /** A sibling that names the layer at `o` but is not right behind it. */
  predicate Stray(s: seq<Layer>, o: int, i: int)
    requires 0 <= o < |s| && 0 <= i < |s|
  {
    i != o && s[i].after == Some(s[o].uid) && i != o + 1
  }

  /** The first stray sibling, in the order the two nested loops look. */
  method FindStray(s: seq<Layer>) returns (found: Option<(nat, nat)>)
    ensures found.Some? ==>
      && found.value.0 < |s| && found.value.1 < |s| && Stray(s, found.value.0, found.value.1)
      && forall o, i :: 0 <= o < found.value.0 && 0 <= i < |s| ==> !Stray(s, o, i)
    ensures found.None? ==> forall o, i :: 0 <= o < |s| && 0 <= i < |s| ==> !Stray(s, o, i)
  {
    for outer := 0 to |s|
      invariant forall o, i :: 0 <= o < outer && 0 <= i < |s| ==> !Stray(s, o, i)
    {
      for inner := 0 to |s|
        invariant forall i :: 0 <= i < inner ==> !Stray(s, outer, i)
      {
        if inner == outer { continue; }
        if s[inner].after == Some(s[outer].uid) && inner != outer + 1 {
          return Some((outer, inner));
        }
      }
    }
    return None;
  }

  /** No stray sibling behind a position means the position is good. */
  lemma NoStrayIsGood(s: seq<Layer>, c: seq<Layer>, p: seq<int>, o: int)
    requires Arranged(s, c, p) && IsChain(c) && 0 <= o < |s|
    requires forall i :: 0 <= i < |s| ==> !Stray(s, o, i)
    ensures Good(p, o)
  {
    if p[o] != |p| - 1 {
      assert p[o] + 1 in p;
      var i :| 0 <= i < |p| && p[i] == p[o] + 1;
      AfterIsNext(s, c, p, o, i);
      assert !Stray(s, o, i);
    }
  }

  lemma StrayIsMisplaced(s: seq<Layer>, c: seq<Layer>, p: seq<int>, o: int, i: int)
    requires Arranged(s, c, p) && IsChain(c) && 0 <= o < |s| && 0 <= i < |s|
    requires Stray(s, o, i) && forall o', i' :: 0 <= o' < o && 0 <= i' < |s| ==> !Stray(s, o', i')
    ensures Misplaced(p, o, i)
  {
    AfterIsNext(s, c, p, o, i);
    forall j | 0 <= j < o
      ensures Good(p, j)
    {
      NoStrayIsGood(s, c, p, j);
    }
  }

  function AfterSet(s: seq<Layer>): set<Option<Name>> {
    set l | l in s :: l.after
  }

  lemma Unsortable(s: seq<Layer>, l: Layer)
    requires l in s
    ensures Revisits(s, l) || (l.after.Some? && l.after.value !in UidSet(s)) ==> !Sortable(s)
  {
    forall c | ChainOf(c, s)
      ensures !Revisits(s, l) && (l.after.Some? ==> l.after.value in UidSet(s))
    {
      ChainNeverRevisits(c, s, l);
      SameElements(c, s, l);
      var i :| 0 <= i < |c| && c[i] == l;
      ChainPrev(c, s, i);
    }
  }

  /** Checking the next sibling against those before it. */
  lemma CheckNext(s: seq<Layer>, k: nat)
    requires k < |s| && DistinctUids(s[..k]) && DistinctAfters(s[..k])
    ensures UidSet(s[..k + 1]) == UidSet(s[..k]) + {s[k].uid}
    ensures AfterSet(s[..k + 1]) == AfterSet(s[..k]) + {s[k].after}
    ensures if s[k].after in AfterSet(s[..k]) || s[k].uid in UidSet(s[..k]) then !Sortable(s)
            else DistinctUids(s[..k + 1]) && DistinctAfters(s[..k + 1])
  {
    assert s[..k + 1] == s[..k] + [s[k]];
    if s[k].after in AfterSet(s[..k]) || s[k].uid in UidSet(s[..k]) {
      var l :| l in s[..k] && (l.after == s[k].after || l.uid == s[k].uid);
      var i :| 0 <= i < k && s[i] == l;
      forall c | ChainOf(c, s)
        ensures false
      {
        ChainUids(c, s);
      }
    } else {
      forall i | 0 <= i < k
        ensures s[i].uid != s[k].uid && s[i].after != s[k].after
      {
        assert s[i] in s[..k];
      }
    }
  }

  /** The first `k` siblings passed the checks that compare siblings with each other. */
  ghost predicate Passed(s: seq<Layer>, k: nat) {
    && k <= |s| && DistinctUids(s[..k]) && DistinctAfters(s[..k])
    && forall i :: 0 <= i < k ==> WalkEnds(s, s[i])
  }

  lemma PassNext(s: seq<Layer>, k: nat)
    requires Passed(s, k) && k < |s| && WalkEnds(s, s[k])
    ensures s[k].after !in AfterSet(s[..k]) && s[k].uid !in UidSet(s[..k]) ==> Passed(s, k + 1)
  {
    CheckNext(s, k);
  }

  lemma AllPassed(s: seq<Layer>)
    requires Passed(s, |s|)
    requires forall a :: a in AfterSet(s) && a.Some? ==> a.value in UidSet(s)
    ensures Sortable(s)
  {
    assert s[..|s|] == s;
    forall l | l in s && l.after.Some?
      ensures l.after.value in UidSet(s)
    {
      assert l.after in AfterSet(s);
    }
    ChainExists(s, []);
  }

  lemma Dangling(s: seq<Layer>, a: Option<Name>)
    requires a in AfterSet(s) && a.Some? && a.value !in UidSet(s)
    ensures !Sortable(s)
  {
    var l :| l in s && l.after == a;
    Unsortable(s, l);
  }

  /** The loop over the unsorted siblings lets through exactly the sortable ones. */
  method FormChain(unsorted: seq<Layer>) returns (ok: bool)
    ensures ok <==> Sortable(unsorted)
  {
    var afters: set<Option<Name>> := {};
    var uids: set<Name> := {};
    for k := 0 to |unsorted|
      invariant afters == AfterSet(unsorted[..k]) && uids == UidSet(unsorted[..k])
      invariant Passed(unsorted, k)
    {
      var l := unsorted[k];
      var cyclic := HasCycle(l, unsorted);
      CheckNext(unsorted, k);
      if l.after in afters || l.uid in uids || cyclic {
        Unsortable(unsorted, l);
        return false;
      }
      PassNext(unsorted, k);
      afters := afters + {l.after};
      uids := uids + {l.uid};
    }
    assert unsorted[..|unsorted|] == unsorted;
    if a :| a in afters && a.Some? && a.value !in uids {
      Dangling(unsorted, a);
      return false;
    }
    AllPassed(unsorted);
    return true;
  }

  /** Terminates on every input. Siblings that form a chain come out in chain order, the
      same whatever order they were stored in; anything else comes back unchanged. */
  method SortLayers(unsorted: seq<Layer>) returns (sorted: seq<Layer>)
    ensures multiset(sorted) == multiset(unsorted)
    ensures Sortable(unsorted) ==> IsChain(sorted)
    ensures !Sortable(unsorted) ==> sorted == unsorted
    ensures sorted == Ordered(unsorted)
  {
    var ok := FormChain(unsorted);
    if !ok { return unsorted; }
    sorted := unsorted;
    ghost var c := Ordered(unsorted);
    ghost var p := Arrangement(c, sorted, |sorted|);
    ArrangementIsPerm(c, sorted, p);
    while true
      invariant ChainOf(c, unsorted) && Arranged(sorted, c, p)
      invariant multiset(sorted) == multiset(unsorted)
      decreases Phase(p), Distance(p), |p| - Lead(p, 0)
    {
      var stray := FindStray(sorted);
      if stray.None? {
        forall o | 0 <= o < |p|
          ensures Good(p, o)
        {
          NoStrayIsGood(sorted, c, p, o);
        }
        Settled(sorted, c, p);
        return sorted;
      }
      var (outer, inner) := stray.value;
      StrayIsMisplaced(sorted, c, p, outer, inner);
      MoveDecreases(p, outer, inner);
      MoveArranged(sorted, c, p, outer, inner);
      MoveMultiset(sorted, outer, inner);
      if outer + 1 == |sorted| {
        sorted := sorted[..inner] + sorted[inner + 1..] + [sorted[inner]];
      } else {
        sorted := sorted[outer + 1 := sorted[inner]][inner := sorted[outer + 1]];
      }
      p := Move(p, outer, inner);
    }
  }
}
