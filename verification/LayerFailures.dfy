/**
 What an operation on layers leaves behind when an append fails between its events: when the
 layers are still chained.
 */
module LayerFailures {
  import opened Common
  import opened LayerOrder
  import opened LayerChains
  import opened Missions

  // ----- One link cannot be changed alone -----

  /** `ms` is `ls` with another predecessor for `t`. */
  ghost predicate Relinked(ls: seq<Layer>, ms: seq<Layer>, t: Name, after: Option<Name>) {
    && Find(ls, t).Some? && Find(ms, t) == Some(Find(ls, t).value.(after := after))
    && forall u :: u != t ==> Find(ms, u) == Find(ls, u)
  }

  lemma {:induction false} PlaceOf(ls: seq<Layer>, p: Option<Name>, xs: seq<Name>, u: Name) returns (i: nat)
    requires Linked(ls, p, xs) && Under(ls, p, u)
    ensures i < |xs| && xs[i] == u && Find(ls, u).value.after == Pred(xs, i)
  {
    assert u in xs;
    i :| 0 <= i < |xs| && xs[i] == u;
    assert LinkAt(ls, xs, i);
  }

  lemma {:induction false} SameBefore(ls: seq<Layer>, ms: seq<Layer>, p: Option<Name>, xs: seq<Name>, ys: seq<Name>,
                                      t: Name, after: Option<Name>, i: nat, k: nat)
    requires Linked(ls, p, xs) && Linked(ms, p, ys) && Relinked(ls, ms, t, after)
    requires i < |xs| && xs[i] == t && k < i
    ensures k < |ys| && ys[k] == xs[k]
  {
    assert LinkAt(ls, xs, k) && xs[k] in xs && Under(ls, p, xs[k]) && xs[k] != t;
    var e := PlaceOf(ms, p, ys, xs[k]);
    if k > 0 {
      SameBefore(ls, ms, p, xs, ys, t, after, i, k - 1);
      assert e - 1 == k - 1;
    }
  }

  lemma {:induction false} SameBehind(ls: seq<Layer>, ms: seq<Layer>, p: Option<Name>, xs: seq<Name>, ys: seq<Name>,
                                      t: Name, after: Option<Name>, i: nat, j: nat, k: nat)
    requires Linked(ls, p, xs) && Linked(ms, p, ys) && Relinked(ls, ms, t, after)
    requires i + k < |xs| && xs[i] == t && j < |ys| && ys[j] == t
    ensures j + k < |ys| && ys[j + k] == xs[i + k]
    decreases k
  {
    if k > 0 {
      SameBehind(ls, ms, p, xs, ys, t, after, i, j, k - 1);
      var u := xs[i + k];
      assert LinkAt(ls, xs, i + k) && u in xs && Under(ls, p, u) && u != t;
      var e := PlaceOf(ms, p, ys, u);
      assert ys[e - 1] == ys[j + k - 1];
    }
  }

  /** In a chain every other link fixes the place of the one that changed: it did not. */
  lemma {:induction false} OneLink(ls: seq<Layer>, ms: seq<Layer>, p: Option<Name>, xs: seq<Name>, ys: seq<Name>,
                                   t: Name, after: Option<Name>)
    requires Linked(ls, p, xs) && Linked(ms, p, ys) && Relinked(ls, ms, t, after) && Under(ls, p, t)
    ensures Find(ls, t).value.after == after
  {
    var i := PlaceOf(ls, p, xs, t);
    var j := PlaceOf(ms, p, ys, t);
    SameSize(ls, ms, p, xs, ys, t, after);
    SameBehind(ls, ms, p, xs, ys, t, after, i, j, |xs| - 1 - i);
    if j < i {
      SameBefore(ls, ms, p, xs, ys, t, after, i, j);
    }
    assert i == j;
    if i > 0 {
      SameBefore(ls, ms, p, xs, ys, t, after, i, i - 1);
    }
  }

  lemma {:induction false} SameSize(ls: seq<Layer>, ms: seq<Layer>, p: Option<Name>, xs: seq<Name>, ys: seq<Name>,
                                    t: Name, after: Option<Name>)
    requires Linked(ls, p, xs) && Linked(ms, p, ys) && Relinked(ls, ms, t, after)
    ensures |xs| == |ys|
  {
    forall u
      ensures u in xs <==> u in ys
    {
      assert Under(ls, p, u) <==> Under(ms, p, u);
    }
    DistinctSize(xs, ys);
    DistinctSize(ys, xs);
  }

  lemma {:induction false} DistinctSize(xs: seq<Name>, ys: seq<Name>)
    requires Distinct(xs) && forall u :: u in xs ==> u in ys
    ensures |xs| <= |ys|
  {
    var a, b := set u | u in xs, set u | u in ys;
    SubsetSize(a, b);
    SetOfDistinct(xs);
    SetOfAny(ys);
  }

  lemma {:induction false} SetOfDistinct(xs: seq<Name>)
    requires Distinct(xs)
    ensures |set u | u in xs| == |xs|
  {
    if xs != [] {
      var n := |xs| - 1;
      SetOfDistinct(xs[..n]);
      assert xs == xs[..n] + [xs[n]];
      assert (set u | u in xs) == (set u | u in xs[..n]) + {xs[n]};
    }
  }

  lemma {:induction false} SetOfAny(ys: seq<Name>)
    ensures |set u | u in ys| <= |ys|
  {
    if ys != [] {
      var n := |ys| - 1;
      SetOfAny(ys[..n]);
      assert ys == ys[..n] + [ys[n]];
      assert (set u | u in ys) == (set u | u in ys[..n]) + {ys[n]};
    }
  }

  // ----- Relinking the followers of a chain -----

  /** In a chain nothing comes after the same layer twice. */
  lemma {:induction false} OneFollower(ls: seq<Layer>, p: Option<Name>, u: Name, v: Name)
    requires DistinctUids(ls) && Linked(ls, p, Order(ls, p)) && Under(ls, p, u) && Under(ls, p, v)
    requires Find(ls, u).value.after == Find(ls, v).value.after
    ensures u == v
  {
    var i := PlaceOf(ls, p, Order(ls, p), u);
    var j := PlaceOf(ls, p, Order(ls, p), v);
  }

  /** `Targets` names each layer once. */
  lemma {:induction false} TargetsDistinct(ls: seq<Layer>, uid: Option<Name>, parent: Option<Name>, after: Option<Name>)
    requires DistinctUids(ls)
    ensures Distinct(Targets(ls, uid, parent, after))
    ensures forall u :: u in Targets(ls, uid, parent, after) ==> exists l :: l in ls && l.uid == u
  {
    if ls != [] {
      TargetsDistinct(ls[1..], uid, parent, after);
      assert ls == [ls[0]] + ls[1..];
      forall u | u in Targets(ls[1..], uid, parent, after)
        ensures u != ls[0].uid && exists l :: l in ls && l.uid == u
      {
        var l :| l in ls[1..] && l.uid == u;
        var j :| 0 <= j < |ls[1..]| && ls[1..][j] == l;
        assert l in ls;
      }
      DistinctCons(ls[0].uid, Targets(ls[1..], uid, parent, after));
    }
  }

  lemma {:induction false} DistinctCons(x: Name, xs: seq<Name>)
    requires Distinct(xs) && x !in xs
    ensures Distinct([x] + xs)
  {
    forall j | 0 <= j < |xs|
      ensures xs[j] != x
    {
      assert xs[j] in xs;
    }
  }

  ghost predicate AtMostOne(xs: seq<Name>) {
    |xs| <= 1
  }

  lemma {:induction false} TwoDiffer(xs: seq<Name>)
    requires Distinct(xs)
    ensures |xs| > 1 ==> exists u, v :: u in xs && v in xs && u != v
  {
    if |xs| > 1 {
      assert xs[0] in xs && xs[1] in xs && xs[0] != xs[1];
    }
  }

  lemma {:induction false} OneTarget(ls: seq<Layer>, uid: Option<Name>, parent: Option<Name>, after: Option<Name>)
    requires DistinctUids(ls)
    requires forall u, v :: u in Targets(ls, uid, parent, after) && v in Targets(ls, uid, parent, after) ==> u == v
    ensures AtMostOne(Targets(ls, uid, parent, after))
  {
    var ts := Targets(ls, uid, parent, after);
    TargetsDistinct(ls, uid, parent, after);
    TwoDiffer(ts);
  }

  lemma {:induction false} ChainHasOneTarget(ls: seq<Layer>, uid: Option<Name>, parent: Option<Name>, after: Option<Name>)
    requires Chained(ls)
    ensures AtMostOne(Targets(ls, uid, parent, after))
  {
    var ts := Targets(ls, uid, parent, after);
    ChainIsLinked(ls, parent);
    forall u, v | u in ts && v in ts
      ensures u == v
    {
      TargetsSpec(ls, uid, parent, after, u);
      TargetsSpec(ls, uid, parent, after, v);
      OneFollower(ls, parent, u, v);
    }
    OneTarget(ls, uid, parent, after);
  }

  /** Layers are determined by their uids in storage order and the lookups. */
  lemma {:induction false} SameByLookup(ls: seq<Layer>, ms: seq<Layer>)
    requires DistinctUids(ls) && Uids(ms) == Uids(ls) && forall u :: Find(ms, u) == Find(ls, u)
    ensures ms == ls
  {
    DistinctByUids(ls);
    DistinctByUids(ms);
    assert |ms| == |Uids(ms)| && |ls| == |Uids(ls)|;
    forall i | 0 <= i < |ls|
      ensures ms[i] == ls[i]
    {
      assert Uids(ms)[i] == Uids(ls)[i];
      assert ms[i] in ms && ls[i] in ls;
      FindUnique(ls, ls[i]);
      FindUnique(ms, ms[i]);
    }
  }

  lemma {:induction false} FixupSame(ls: seq<Layer>, uid: Option<Name>, parent: Option<Name>, after: Option<Name>)
    requires DistinctUids(ls) && uid == after
    ensures Fixup(ls, uid, parent, after) == ls
  {
    var ms := Fixup(ls, uid, parent, after);
    UidsSetAfters(ls, Targets(ls, uid, parent, after), uid);
    forall u
      ensures Find(ms, u) == Find(ls, u)
    {
      FindFixup(ls, uid, parent, after, u);
    }
    SameByLookup(ls, ms);
  }

  /** Relinking the followers in a chain, and nothing else, breaks it unless nothing changes. */
  lemma {:induction false} FixupKeepsChainIff(ls: seq<Layer>, uid: Option<Name>, parent: Option<Name>, after: Option<Name>)
    requires Chained(ls)
    ensures Chained(Fixup(ls, uid, parent, after)) <==> Fixup(ls, uid, parent, after) == ls
  {
    var ms, ts := Fixup(ls, uid, parent, after), Targets(ls, uid, parent, after);
    ChainHasOneTarget(ls, uid, parent, after);
    if Chained(ms) && ts != [] {
      var t := ts[0];
      ChainIsLinked(ls, parent);
      ChainIsLinked(ms, parent);
      TargetsSpec(ls, uid, parent, after, t);
      forall u | u != t
        ensures Find(ms, u) == Find(ls, u)
      {
        TargetsSpec(ls, uid, parent, after, u);
        FindFixup(ls, uid, parent, after, u);
      }
      FindFixup(ls, uid, parent, after, t);
      OneLink(ls, ms, parent, Order(ls, parent), Order(ms, parent), t, uid);
      FixupSame(ls, uid, parent, after);
    }
  }

  // ----- A failed add or delete -----

  /** A failed add leaves the layers as they were, or with the followers relinked to a layer that
      was not saved. */
  ghost predicate LeftByAdd(ls: seq<Layer>, layer: Layer, left: seq<Layer>) {
    left == ls || left == Fixup(ls, Some(layer.uid), layer.parent, layer.after)
  }

  /** What it left is chained exactly if nothing changed. */
  lemma {:induction false} FailedAddIff(ls: seq<Layer>, layer: Layer, left: seq<Layer>)
    requires Chained(ls) && LeftByAdd(ls, layer, left)
    ensures Chained(left) <==> left == ls
  {
    FixupKeepsChainIff(ls, Some(layer.uid), layer.parent, layer.after);
  }

  /** A failed delete leaves the layers as they were, or with the follower relinked past a layer
      that is still there. */
  ghost predicate LeftByDelete(ls: seq<Layer>, layer: Layer, left: seq<Layer>) {
    left == ls || left == Unlinked(ls, layer)
  }

  lemma {:induction false} FailedDeleteIff(ls: seq<Layer>, layer: Layer, left: seq<Layer>)
    requires Chained(ls) && LeftByDelete(ls, layer, left)
    ensures Chained(left) <==> left == ls
  {
    FixupKeepsChainIff(ls, layer.after, layer.parent, Some(layer.uid));
  }

  // ----- A failed move -----

  function Unlinked(ls: seq<Layer>, layer: Layer): seq<Layer> {
    Fixup(ls, layer.after, layer.parent, Some(layer.uid))
  }

  function Relinking(ls: seq<Layer>, layer: Layer, parent: Option<Name>, after: Option<Name>): seq<Layer> {
    Fixup(Unlinked(ls, layer), Some(layer.uid), parent, after)
  }

  lemma {:induction false} UnlinkedIsDeleted(ls: seq<Layer>, uid: Name, u: Name)
    requires DistinctUids(ls) && Find(ls, uid).Some?
    requires Find(ls, uid).value.after != Some(uid)
    ensures Find(Unlinked(ls, Find(ls, uid).value), u) ==
            if u == uid then Find(ls, uid) else Find(DeleteLayer(ls, uid), u)
  {
    var layer := Find(ls, uid).value;
    FindFixup(ls, layer.after, layer.parent, Some(uid), u);
    FindDelete(ls, uid, u);
  }

  lemma {:induction false} NotAfterItself(ls: seq<Layer>, uid: Name)
    requires Chained(ls) && Find(ls, uid).Some?
    ensures Find(ls, uid).value.after != Some(uid) && Find(ls, uid).value.uid == uid
  {
    var p := Find(ls, uid).value.parent;
    ChainIsLinked(ls, p);
    assert Under(ls, p, uid);
    LinkedAfterIsSibling(ls, p, uid);
  }

  /** After unlinking, linking in again also meets at most one follower. */
  lemma {:induction false} RelinkingHasOneTarget(ls: seq<Layer>, uid: Name, parent: Option<Name>, after: Option<Name>)
    requires Chained(ls) && Find(ls, uid).Some?
    ensures AtMostOne(Targets(Unlinked(ls, Find(ls, uid).value), Some(uid), parent, after))
  {
    var layer, gone := Find(ls, uid).value, DeleteLayer(ls, uid);
    var ms := Unlinked(ls, layer);
    var ts := Targets(ms, Some(uid), parent, after);
    NotAfterItself(ls, uid);
    FixupDistinct(ls, layer.after, layer.parent, Some(uid));
    DeleteRefines(ls, uid);
    ChainIsLinked(gone, parent);
    forall u, v | u in ts && v in ts
      ensures u == v
    {
      TargetsSpec(ms, Some(uid), parent, after, u);
      TargetsSpec(ms, Some(uid), parent, after, v);
      UnlinkedIsDeleted(ls, uid, u);
      UnlinkedIsDeleted(ls, uid, v);
      OneFollower(gone, parent, u, v);
    }
    OneTarget(ms, Some(uid), parent, after);
  }

  /** With a follower relinked past it and not linked in again, the layer and the follower come
      after the same layer. */
  lemma {:induction false} BothFollow(ls: seq<Layer>, uid: Name, parent: Option<Name>, after: Option<Name>, f: Name)
    requires Chained(ls) && Find(ls, uid).Some? && Find(ls, f).Some?
    requires var layer := Find(ls, uid).value; Follows(Find(ls, f).value, layer.after, layer.parent, Some(uid))
    requires var layer := Find(ls, uid).value; !(layer.parent == parent && layer.after == after)
    ensures !Chained(Relinking(ls, Find(ls, uid).value, parent, after))
  {
    var layer := Find(ls, uid).value;
    var unlinked, ms := Unlinked(ls, layer), Relinking(ls, layer, parent, after);
    NotAfterItself(ls, uid);
    FixupDistinct(ls, layer.after, layer.parent, Some(uid));
    FindFixup(ls, layer.after, layer.parent, Some(uid), uid);
    FindFixup(ls, layer.after, layer.parent, Some(uid), f);
    FindFixup(unlinked, Some(uid), parent, after, uid);
    FindFixup(unlinked, Some(uid), parent, after, f);
    if Chained(ms) {
      ChainIsLinked(ms, layer.parent);
      OneFollower(ms, layer.parent, uid, f);
    }
  }

  /** Put back where it was, the follower is relinked as it was. */
  lemma {:induction false} PutBack(ls: seq<Layer>, uid: Name)
    requires Chained(ls) && Find(ls, uid).Some?
    ensures var layer := Find(ls, uid).value; Relinking(ls, layer, layer.parent, layer.after) == ls
  {
    var layer := Find(ls, uid).value;
    var unlinked, ms := Unlinked(ls, layer), Relinking(ls, layer, layer.parent, layer.after);
    NotAfterItself(ls, uid);
    FixupDistinct(ls, layer.after, layer.parent, Some(uid));
    UidsSetAfters(ls, Targets(ls, layer.after, layer.parent, Some(uid)), layer.after);
    UidsSetAfters(unlinked, Targets(unlinked, Some(uid), layer.parent, layer.after), Some(uid));
    ChainIsLinked(ls, layer.parent);
    forall u
      ensures Find(ms, u) == Find(ls, u)
    {
      FindFixup(ls, layer.after, layer.parent, Some(uid), u);
      FindFixup(unlinked, Some(uid), layer.parent, layer.after, u);
      if Under(ls, layer.parent, u) && Find(ls, u).value.after == layer.after {
        OneFollower(ls, layer.parent, u, uid);
      }
      AfterNotSelf(ls, layer.parent, u);
    }
    SameByLookup(ls, ms);
  }

  lemma {:induction false} AfterNotSelf(ls: seq<Layer>, p: Option<Name>, u: Name)
    requires Linked(ls, p, Order(ls, p))
    ensures Under(ls, p, u) ==> Find(ls, u).value.after != Some(u)
  {
    if Under(ls, p, u) {
      LinkedAfterIsSibling(ls, p, u);
    }
  }

  lemma {:induction false} NoFollower(ls: seq<Layer>, layer: Layer)
    requires DistinctUids(ls)
    requires forall f :: Find(ls, f).Some? ==> !Follows(Find(ls, f).value, layer.after, layer.parent, Some(layer.uid))
    ensures Unlinked(ls, layer) == ls
  {
    UidsSetAfters(ls, Targets(ls, layer.after, layer.parent, Some(layer.uid)), layer.after);
    forall u
      ensures Find(Unlinked(ls, layer), u) == Find(ls, u)
    {
      FindFixup(ls, layer.after, layer.parent, Some(layer.uid), u);
    }
    SameByLookup(ls, Unlinked(ls, layer));
  }

  /** Relinked on both sides and not yet placed: chained exactly if nothing changed. */
  lemma {:induction false} RelinkingIff(ls: seq<Layer>, uid: Name, parent: Option<Name>, after: Option<Name>)
    requires Chained(ls) && Find(ls, uid).Some?
    ensures var ms := Relinking(ls, Find(ls, uid).value, parent, after); Chained(ms) <==> ms == ls
  {
    var layer := Find(ls, uid).value;
    NotAfterItself(ls, uid);
    if layer.parent == parent && layer.after == after {
      PutBack(ls, uid);
    } else if f :| Find(ls, f).Some? && Follows(Find(ls, f).value, layer.after, layer.parent, Some(uid)) {
      BothFollow(ls, uid, parent, after, f);
    } else {
      NoFollower(ls, layer);
      FixupKeepsChainIff(ls, Some(uid), parent, after);
    }
  }

  /** The new parent stored, the new predecessor not yet. */
  function Reparented(ls: seq<Layer>, layer: Layer, parent: Option<Name>, after: Option<Name>): seq<Layer> {
    SetParent(Relinking(ls, layer, parent, after), layer.uid, parent)
  }

  /** Under the new parent something other than the layer comes first. */
  lemma {:induction false} OtherHead(ls: seq<Layer>, uid: Name, parent: Option<Name>, after: Option<Name>) returns (h: Name)
    requires Chained(ls) && CanMove(ls, uid, parent, after) && after.Some?
    ensures h != uid && Find(DeleteLayer(ls, uid), h).Some?
    ensures var l := Find(DeleteLayer(ls, uid), h).value; l.parent == parent && l.after.None?
  {
    var gone := DeleteLayer(ls, uid);
    DeleteRefines(ls, uid);
    ChainIsLinked(gone, parent);
    FindDelete(ls, uid, after.value);
    FindDelete(ls, uid, uid);
    assert Under(gone, parent, after.value) && after.value in Order(gone, parent);
    h := Order(gone, parent)[0];
    assert LinkAt(gone, Order(gone, parent), 0) && h in Order(gone, parent) && Under(gone, parent, h);
  }

  lemma {:induction false} TwoHeads(ls: seq<Layer>, uid: Name, parent: Option<Name>, after: Option<Name>)
    requires Chained(ls) && CanMove(ls, uid, parent, after) && after.Some?
    ensures !Chained(Reparented(ls, Find(ls, uid).value, parent, after))
  {
    var layer := Find(ls, uid).value;
    var unlinked, relinked := Unlinked(ls, layer), Relinking(ls, layer, parent, after);
    var ms := Reparented(ls, layer, parent, after);
    var setParent := (l: Layer) => l.(parent := parent, after := None);
    var h := OtherHead(ls, uid, parent, after);
    NotAfterItself(ls, uid);
    FixupDistinct(ls, layer.after, layer.parent, Some(uid));
    UnlinkedIsDeleted(ls, uid, h);
    UnlinkedIsDeleted(ls, uid, uid);
    FindFixup(unlinked, Some(uid), parent, after, h);
    FindFixup(unlinked, Some(uid), parent, after, uid);
    FindSetFirst(relinked, uid, setParent, h);
    FindSetFirst(relinked, uid, setParent, uid);
    if Chained(ms) {
      ChainIsLinked(ms, parent);
      OneFollower(ms, parent, h, uid);
    }
  }

  lemma {:induction false} AtTheHead(ls: seq<Layer>, uid: Name, parent: Option<Name>)
    requires Chained(ls) && Find(ls, uid).Some?
    requires var from := Find(ls, uid).value.parent; from != parent || from.None?
    ensures Reparented(ls, Find(ls, uid).value, parent, None) == MoveLayer(ls, uid, parent, None)
  {
    var layer := Find(ls, uid).value;
    var relinked, ms := Relinking(ls, layer, parent, None), Reparented(ls, layer, parent, None);
    var setParent := (l: Layer) => l.(parent := parent, after := None);
    var setAfter := (l: Layer) => l.(after := None);
    NotAfterItself(ls, uid);
    FixupDistinct(ls, layer.after, layer.parent, Some(uid));
    FixupDistinct(Unlinked(ls, layer), Some(uid), parent, None);
    FindFixup(ls, layer.after, layer.parent, Some(uid), uid);
    FindFixup(Unlinked(ls, layer), Some(uid), parent, None, uid);
    SetFirstDistinct(relinked, uid, setParent);
    FindSetFirst(relinked, uid, setParent, uid);
    UidsSetFirst(ms, uid, setAfter);
    forall u
      ensures Find(SetFirst(ms, uid, setAfter), u) == Find(ms, u)
    {
      FindSetFirst(ms, uid, setAfter, u);
    }
    SameByLookup(ms, SetFirst(ms, uid, setAfter));
  }

  /** What a failed move can leave. */
  ghost predicate LeftByMove(ls: seq<Layer>, layer: Layer, parent: Option<Name>, after: Option<Name>, left: seq<Layer>) {
    || left == ls || left == Unlinked(ls, layer) || left == Relinking(ls, layer, parent, after)
    || (left == Reparented(ls, layer, parent, after) && (layer.parent != parent || layer.parent.None?))
  }

  /** A failed move leaves the layers chained exactly if it changed nothing or everything. */
  lemma {:induction false} FailedMoveIff(ls: seq<Layer>, uid: Name, parent: Option<Name>, after: Option<Name>, left: seq<Layer>)
    requires Chained(ls) && CanMove(ls, uid, parent, after) && LeftByMove(ls, Find(ls, uid).value, parent, after, left)
    ensures Chained(left) <==> left == ls || left == MoveLayer(ls, uid, parent, after)
  {
    var layer := Find(ls, uid).value;
    NotAfterItself(ls, uid);
    MoveRefines(ls, uid, parent, after);
    if left == Unlinked(ls, layer) {
      FixupKeepsChainIff(ls, layer.after, layer.parent, Some(uid));
    } else if left == Relinking(ls, layer, parent, after) {
      RelinkingIff(ls, uid, parent, after);
    } else if left != ls {
      if after.Some? {
        TwoHeads(ls, uid, parent, after);
      } else {
        AtTheHead(ls, uid, parent);
      }
    }
  }
}
