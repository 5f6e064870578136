/**
 Sibling layers of a mission and how they are put in order. Each sibling names the one it
 comes after; the vector that stores them is in no particular order. `SortLayers` recovers
 the order, or gives the input back when the siblings do not form a chain.
 */
module LayerOrder {
  import opened Common

  datatype LayerType = Group | Uid | Contents | Maplayer | Item

  datatype Layer = Layer(uid: Name, name: Option<Name>, kind: LayerType,
                         parent: Option<Name>, after: Option<Name>)

  function UidSet(s: seq<Layer>): set<Name> {
    set l | l in s :: l.uid
  }

  lemma UidSetAppend(s: seq<Layer>, l: Layer)
    ensures UidSet(s + [l]) == UidSet(s) + {l.uid}
  {
    forall u | u in UidSet(s) + {l.uid}
      ensures u in UidSet(s + [l])
    {
      var k :| k in s + [l] && k.uid == u;
    }
  }

  // ----- What being in order means -----

  ghost predicate DistinctUids(s: seq<Layer>) {
    forall i, j :: 0 <= i < j < |s| ==> s[i].uid != s[j].uid
  }

  /** The element at `i` comes after the one before it; the first comes after nothing. */
  ghost predicate LinkedAt(c: seq<Layer>, i: int)
    requires 0 <= i < |c|
  {
    c[i].after == if i == 0 then None else Some(c[i - 1].uid)
  }

  ghost predicate IsChain(c: seq<Layer>) {
    && DistinctUids(c)
    && forall i :: 0 <= i < |c| ==> LinkedAt(c, i)
  }

  ghost predicate ChainOf(c: seq<Layer>, s: seq<Layer>) {
    IsChain(c) && multiset(c) == multiset(s)
  }

  ghost predicate Sortable(s: seq<Layer>) {
    exists c :: ChainOf(c, s)
  }

  /** The specification of sorting: the chain made of exactly these siblings if there is
      one, and the siblings as they are otherwise. */
  ghost function Ordered(s: seq<Layer>): seq<Layer> {
    if Sortable(s) then (var c :| ChainOf(c, s); c) else s
  }

  lemma ChainDistinct(c: seq<Layer>)
    requires IsChain(c)
    ensures Distinct(c)
  {
  }

  lemma ChainLength(c: seq<Layer>, d: seq<Layer>)
    requires multiset(c) == multiset(d)
    ensures |c| == |d|
  {
    assert |c| == |multiset(c)| && |d| == |multiset(d)|;
  }

  /** Siblings make at most one chain, so the order does not depend on how they were stored. */
  lemma {:induction false} ChainUnique(c: seq<Layer>, d: seq<Layer>, n: nat)
    requires IsChain(c) && IsChain(d) && multiset(c) == multiset(d) && n < |c|
    ensures |c| == |d| && c[n] == d[n]
    decreases n
  {
    ChainLength(c, d);
    assert c[n] in c;
    SameElements(c, d, c[n]);
    var i :| 0 <= i < |d| && d[i] == c[n];
    assert LinkedAt(d, i) && LinkedAt(c, n);
    if n > 0 {
      ChainUnique(c, d, n - 1);
    }
  }

  /** `Ordered` is a permutation, is the chain whenever one exists, and does not depend on
      the stored order. */
  lemma OrderedUnique(s: seq<Layer>, t: seq<Layer>, c: seq<Layer>)
    requires multiset(s) == multiset(t)
    ensures multiset(Ordered(s)) == multiset(s)
    ensures ChainOf(c, s) ==> Ordered(s) == c && Ordered(t) == c
  {
    if ChainOf(c, s) {
      assert ChainOf(c, t);
      ChainLength(c, Ordered(s));
      ChainLength(c, Ordered(t));
      forall n | 0 <= n < |c|
        ensures Ordered(s)[n] == c[n] && Ordered(t)[n] == c[n]
      {
        ChainUnique(c, Ordered(s), n);
        ChainUnique(c, Ordered(t), n);
      }
    }
  }

  // ----- Cycle detection -----

  /** The first layer with this uid. */
  function Find(s: seq<Layer>, uid: Name): (r: Option<Layer>)
    ensures r.Some? ==> r.value in s && r.value.uid == uid
    ensures r.None? ==> forall l :: l in s ==> l.uid != uid
  {
    if s == [] then None
    else if s[0].uid == uid then Some(s[0])
    else Find(s[1..], uid)
  }

  lemma FindUnique(s: seq<Layer>, l: Layer)
    requires DistinctUids(s) && l in s
    ensures Find(s, l.uid) == Some(l)
  {
    var f := Find(s, l.uid).value;
    var i :| 0 <= i < |s| && s[i] == l;
    var j :| 0 <= j < |s| && s[j] == f;
  }

  /** The layer that `l` says it comes after, if it is there. */
  function Prev(s: seq<Layer>, l: Layer): Option<Layer> {
    if l.after.None? then None else Find(s, l.after.value)
  }

  ghost predicate StepBack(s: seq<Layer>, w: seq<Layer>, i: int)
    requires 0 < i < |w|
  {
    Prev(s, w[i - 1]) == Some(w[i])
  }

  /** `w` steps back from `l`, one predecessor at a time. */
  ghost predicate IsWalk(s: seq<Layer>, l: Layer, w: seq<Layer>) {
    && w != [] && w[0] == l
    && forall i :: 0 < i < |w| ==> StepBack(s, w, i)
  }

  /** Walking back from `l` meets some uid twice. */
  ghost predicate Revisits(s: seq<Layer>, l: Layer) {
    exists w :: IsWalk(s, l, w) && !DistinctUids(w)
  }

  /** Walking back from `l` reaches a layer that comes after nothing present. */
  ghost predicate WalkEnds(s: seq<Layer>, l: Layer) {
    exists w :: IsWalk(s, l, w) && Prev(s, w[|w| - 1]).None?
  }

  /** A walk that ended has every other walk from there as a prefix. */
  lemma {:induction false} WalkPrefix(s: seq<Layer>, l: Layer, w: seq<Layer>, v: seq<Layer>, i: nat)
    requires IsWalk(s, l, w) && Prev(s, w[|w| - 1]).None? && IsWalk(s, l, v) && i < |v|
    ensures i < |w| && v[i] == w[i]
  {
    if i > 0 {
      WalkPrefix(s, l, w, v, i - 1);
      assert StepBack(s, v, i);
      assert i < |w| ==> StepBack(s, w, i);
    }
  }

  lemma WalkExtend(s: seq<Layer>, l: Layer, w: seq<Layer>, x: Layer)
    requires IsWalk(s, l, w) && DistinctUids(w) && Prev(s, w[|w| - 1]) == Some(x)
    ensures IsWalk(s, l, w + [x])
    ensures UidSet(w + [x]) == UidSet(w) + {x.uid}
    ensures DistinctUids(w + [x]) <==> x.uid !in UidSet(w)
  {
    var v := w + [x];
    forall i | 0 < i < |v|
      ensures StepBack(s, v, i)
    {
      assert i < |w| ==> StepBack(s, w, i);
    }
    UidSetAppend(w, x);
    if x.uid in UidSet(w) {
      var k :| k in w && k.uid == x.uid;
      var i :| 0 <= i < |w| && w[i] == k;
      assert v[i].uid == v[|w|].uid;
    }
  }

  lemma EndedWalkDecides(s: seq<Layer>, l: Layer, w: seq<Layer>)
    requires IsWalk(s, l, w) && DistinctUids(w) && Prev(s, w[|w| - 1]).None?
    ensures !Revisits(s, l)
  {
    forall v | IsWalk(s, l, v)
      ensures DistinctUids(v)
    {
      forall i | 0 <= i < |v|
        ensures i < |w| && v[i] == w[i]
      {
        WalkPrefix(s, l, w, v, i);
      }
    }
  }

  /** Terminates on every input, and answers true exactly when walking back from `check`
      reaches a uid again; a walk without a cycle comes to an end. */
  method HasCycle(check: Layer, layers: seq<Layer>) returns (cyclic: bool)
    ensures cyclic <==> Revisits(layers, check)
    ensures !cyclic ==> WalkEnds(layers, check)
  {
    var seen := {check.uid};
    var current := check;
    ghost var walk := [check];
    ghost var all := UidSet(layers) + {check.uid};
    var prev := Prev(layers, current);
    while prev.Some?
      invariant prev == Prev(layers, current)
      invariant IsWalk(layers, check, walk) && walk[|walk| - 1] == current
      invariant DistinctUids(walk)
      invariant seen == UidSet(walk) <= all
      decreases |all - seen|
    {
      WalkExtend(layers, check, walk, prev.value);
      walk := walk + [prev.value];
      if prev.value.uid in seen {
        return true;
      }
      assert prev.value.uid in all - seen;
      assert all - (seen + {prev.value.uid}) == (all - seen) - {prev.value.uid};
      seen := seen + {prev.value.uid};
      current := prev.value;
      prev := Prev(layers, current);
    }
    EndedWalkDecides(layers, check, walk);
    cyclic := false;
  }
}
