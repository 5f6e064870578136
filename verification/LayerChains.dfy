/**
 Adding, moving and deleting layers. The stored links are rewired event by event; the
 abstract view is one ordered list of uids per parent, and each operation is an insertion,
 relocation or removal on those lists.
 */
module LayerChains {
  import opened Common
  import opened LayerOrder
  import opened LayerChecks
  import opened Missions

  // ----- The operations on one mission's vector of layers -----

  /** `fixup_after` relinks the layers under `parent` that come after `after`, `uid` excepted. */
  predicate Follows(l: Layer, uid: Option<Name>, parent: Option<Name>, after: Option<Name>) {
    uid != Some(l.uid) && l.parent == parent && l.after == after
  }

  function Targets(ls: seq<Layer>, uid: Option<Name>, parent: Option<Name>, after: Option<Name>): seq<Name> {
    if ls == [] then []
    else
      var rest := Targets(ls[1..], uid, parent, after);
      if Follows(ls[0], uid, parent, after) then [ls[0].uid] + rest else rest
  }

  function SetAfters(ls: seq<Layer>, targets: seq<Name>, after: Option<Name>): seq<Layer> {
    if targets == [] then ls
    else SetAfter(SetAfters(ls, targets[..|targets| - 1], after), targets[|targets| - 1], after)
  }

  function Fixup(ls: seq<Layer>, uid: Option<Name>, parent: Option<Name>, after: Option<Name>): seq<Layer> {
    SetAfters(ls, Targets(ls, uid, parent, after), uid)
  }

  function AddLayer(ls: seq<Layer>, layer: Layer): seq<Layer> {
    Fixup(ls, Some(layer.uid), layer.parent, layer.after) + [layer]
  }

  /** Unlinks the layer, links it in at its new place, then stores that place in it. */
  function MoveLayer(ls: seq<Layer>, uid: Name, parent: Option<Name>, after: Option<Name>): seq<Layer>
    requires Find(ls, uid).Some?
  {
    var layer := Find(ls, uid).value;
    var unlinked := Fixup(ls, layer.after, layer.parent, Some(uid));
    var linked := Fixup(unlinked, Some(uid), parent, after);
    Placed(linked, uid, layer.parent, parent, after)
  }

  /** The parent is stored if it changed (or was the top), the predecessor only if the stored
      parent is the wanted one. */
  function Placed(ls: seq<Layer>, uid: Name, from: Option<Name>, parent: Option<Name>, after: Option<Name>): seq<Layer> {
    var moved := if from != parent || from.None? then SetParent(ls, uid, parent) else ls;
    var found := Find(moved, uid);
    var current := if found.Some? then found.value.parent else None;
    if current == parent then SetAfter(moved, uid, after) else moved
  }

  function DeleteLayer(ls: seq<Layer>, uid: Name): seq<Layer> {
    var found := Find(ls, uid);
    if found.None? then ls else Drop(Fixup(ls, found.value.after, found.value.parent, Some(uid)), uid)
  }

  // ----- The abstract view -----

  function Siblings(ls: seq<Layer>, parent: Option<Name>): seq<Layer> {
    if ls == [] then []
    else if ls[0].parent == parent then [ls[0]] + Siblings(ls[1..], parent)
    else Siblings(ls[1..], parent)
  }

  ghost function Uids(ls: seq<Layer>): seq<Name> {
    seq(|ls|, i requires 0 <= i < |ls| => ls[i].uid)
  }

  /** The uids under a parent in the order readers see them. */
  ghost function Order(ls: seq<Layer>, parent: Option<Name>): seq<Name> {
    Uids(Ordered(Siblings(ls, parent)))
  }

  /** Every parent's layers form a single chain. */
  ghost predicate Chained(ls: seq<Layer>) {
    DistinctUids(ls) && forall p :: Sortable(Siblings(ls, p))
  }

  function InsertAfter(xs: seq<Name>, after: Option<Name>, uid: Name): seq<Name> {
    if after.None? then [uid] + xs
    else if xs == [] then [uid]
    else if xs[0] == after.value then [xs[0], uid] + xs[1..]
    else [xs[0]] + InsertAfter(xs[1..], after, uid)
  }

  function Remove(xs: seq<Name>, uid: Name): seq<Name> {
    if xs == [] then []
    else if xs[0] == uid then Remove(xs[1..], uid)
    else [xs[0]] + Remove(xs[1..], uid)
  }

  // ----- Links, looked up by uid -----

  /** The predecessor that position `i` of `xs` calls for. */
  ghost function Pred(xs: seq<Name>, i: int): Option<Name>
    requires 0 <= i < |xs|
  {
    if i == 0 then None else Some(xs[i - 1])
  }

  ghost predicate Under(ls: seq<Layer>, p: Option<Name>, u: Name) {
    Find(ls, u).Some? && Find(ls, u).value.parent == p
  }

  ghost predicate LinkAt(ls: seq<Layer>, xs: seq<Name>, i: int)
    requires 0 <= i < |xs|
  {
    Find(ls, xs[i]).Some? && Find(ls, xs[i]).value.after == Pred(xs, i)
  }

  /** The layers under `p` are exactly `xs`, linked in this order. */
  ghost predicate Linked(ls: seq<Layer>, p: Option<Name>, xs: seq<Name>) {
    && Distinct(xs)
    && (forall u :: u in xs <==> Under(ls, p, u))
    && (forall i :: 0 <= i < |xs| ==> LinkAt(ls, xs, i))
  }

  // ----- What each event does to lookups -----

  lemma {:induction false} FindSetFirst(ls: seq<Layer>, uid: Name, f: Layer -> Layer, u: Name)
    requires forall l {:trigger f(l)} :: f(l).uid == l.uid
    ensures Find(SetFirst(ls, uid, f), u) ==
            if u == uid && Find(ls, u).Some? then Some(f(Find(ls, u).value)) else Find(ls, u)
  {
    if ls != [] {
      if ls[0].uid == uid {
        assert ([f(ls[0])] + ls[1..])[1..] == ls[1..];
      } else {
        FindSetFirst(ls[1..], uid, f, u);
        assert ([ls[0]] + SetFirst(ls[1..], uid, f))[1..] == SetFirst(ls[1..], uid, f);
      }
    }
  }

  lemma {:induction false} FindAppend(ls: seq<Layer>, layer: Layer, u: Name)
    ensures Find(ls + [layer], u) ==
            if Find(ls, u).Some? then Find(ls, u) else if u == layer.uid then Some(layer) else None
  {
    if ls == [] {
      assert [] + [layer] == [layer];
    } else {
      assert (ls + [layer])[1..] == ls[1..] + [layer];
      FindAppend(ls[1..], layer, u);
    }
  }

  lemma {:induction false} FindDrop(ls: seq<Layer>, uid: Name, u: Name)
    ensures Find(Drop(ls, uid), u) == if u == uid then None else Find(ls, u)
  {
    if ls != [] {
      FindDrop(ls[1..], uid, u);
      if ls[0].uid != uid {
        assert ([ls[0]] + Drop(ls[1..], uid))[1..] == Drop(ls[1..], uid);
      }
    }
  }

  lemma {:induction false} FindSetAfters(ls: seq<Layer>, targets: seq<Name>, after: Option<Name>, u: Name)
    ensures Find(SetAfters(ls, targets, after), u) ==
            if u in targets && Find(ls, u).Some? then Some(Find(ls, u).value.(after := after)) else Find(ls, u)
  {
    if targets != [] {
      var front, t := targets[..|targets| - 1], targets[|targets| - 1];
      assert targets == front + [t];
      FindSetAfters(ls, front, after, u);
      FindSetFirst(SetAfters(ls, front, after), t, (l: Layer) => l.(after := after), u);
    }
  }

  lemma {:induction false} TargetsSpec(ls: seq<Layer>, uid: Option<Name>, parent: Option<Name>, after: Option<Name>, u: Name)
    requires DistinctUids(ls)
    ensures u in Targets(ls, uid, parent, after) <==>
            Find(ls, u).Some? && Follows(Find(ls, u).value, uid, parent, after)
  {
    if ls != [] {
      TargetsSpec(ls[1..], uid, parent, after, u);
    }
  }

  /** `fixup_after` changes the predecessor of exactly the layers that follow. */
  lemma FindFixup(ls: seq<Layer>, uid: Option<Name>, parent: Option<Name>, after: Option<Name>, u: Name)
    requires DistinctUids(ls)
    ensures Find(Fixup(ls, uid, parent, after), u) ==
            if Find(ls, u).Some? && Follows(Find(ls, u).value, uid, parent, after)
            then Some(Find(ls, u).value.(after := uid)) else Find(ls, u)
  {
    TargetsSpec(ls, uid, parent, after, u);
    FindSetAfters(ls, Targets(ls, uid, parent, after), uid, u);
  }

  // ----- Uids stay distinct -----

  /** The uids stored, in storage order. */
  lemma {:induction false} UidsSetFirst(ls: seq<Layer>, uid: Name, f: Layer -> Layer)
    requires forall l {:trigger f(l)} :: f(l).uid == l.uid
    ensures Uids(SetFirst(ls, uid, f)) == Uids(ls)
  {
    if ls != [] && ls[0].uid != uid {
      UidsSetFirst(ls[1..], uid, f);
      assert Uids(ls) == [ls[0].uid] + Uids(ls[1..]);
      assert Uids(SetFirst(ls, uid, f)) == [ls[0].uid] + Uids(SetFirst(ls[1..], uid, f));
    }
  }

  lemma {:induction false} UidsSetAfters(ls: seq<Layer>, targets: seq<Name>, after: Option<Name>)
    ensures Uids(SetAfters(ls, targets, after)) == Uids(ls)
  {
    if targets != [] {
      var front := targets[..|targets| - 1];
      UidsSetAfters(ls, front, after);
      UidsSetFirst(SetAfters(ls, front, after), targets[|targets| - 1], (l: Layer) => l.(after := after));
    }
  }

  lemma DistinctByUids(ls: seq<Layer>)
    ensures DistinctUids(ls) <==> Distinct(Uids(ls))
  {
    if Distinct(Uids(ls)) {
      forall i, j | 0 <= i < j < |ls|
        ensures ls[i].uid != ls[j].uid
      {
        assert Uids(ls)[i] != Uids(ls)[j];
      }
    }
  }

  lemma FixupDistinct(ls: seq<Layer>, uid: Option<Name>, parent: Option<Name>, after: Option<Name>)
    ensures DistinctUids(Fixup(ls, uid, parent, after)) <==> DistinctUids(ls)
  {
    UidsSetAfters(ls, Targets(ls, uid, parent, after), uid);
    DistinctByUids(ls);
    DistinctByUids(Fixup(ls, uid, parent, after));
  }

  lemma SetFirstDistinct(ls: seq<Layer>, uid: Name, f: Layer -> Layer)
    requires forall l {:trigger f(l)} :: f(l).uid == l.uid
    requires DistinctUids(ls)
    ensures DistinctUids(SetFirst(ls, uid, f))
  {
    UidsSetFirst(ls, uid, f);
    DistinctByUids(ls);
    DistinctByUids(SetFirst(ls, uid, f));
  }

  lemma {:induction false} DropDistinct(ls: seq<Layer>, uid: Name)
    requires DistinctUids(ls)
    ensures DistinctUids(Drop(ls, uid)) && forall l :: l in Drop(ls, uid) ==> l in ls
  {
    if ls != [] {
      DropDistinct(ls[1..], uid);
      forall l | l in Drop(ls[1..], uid)
        ensures l.uid != ls[0].uid
      {
        var j :| 0 <= j < |ls[1..]| && ls[1..][j] == l;
      }
    }
  }

  lemma AppendDistinct(ls: seq<Layer>, layer: Layer)
    requires DistinctUids(ls) && Find(ls, layer.uid).None?
    ensures DistinctUids(ls + [layer])
  {
    forall i | 0 <= i < |ls|
      ensures ls[i].uid != layer.uid
    {
      assert ls[i] in ls;
    }
  }

  // ----- Links and chains -----

  lemma {:induction false} SiblingsSpec(ls: seq<Layer>, p: Option<Name>)
    requires DistinctUids(ls)
    ensures DistinctUids(Siblings(ls, p))
    ensures forall l :: l in Siblings(ls, p) <==> l in ls && l.parent == p
  {
    if ls != [] {
      SiblingsSpec(ls[1..], p);
      assert ls == [ls[0]] + ls[1..];
      forall l | l in Siblings(ls[1..], p)
        ensures l.uid != ls[0].uid
      {
        var j :| 0 <= j < |ls[1..]| && ls[1..][j] == l;
      }
    }
  }

  ghost function Records(ls: seq<Layer>, xs: seq<Name>): seq<Layer>
    requires forall i :: 0 <= i < |xs| ==> LinkAt(ls, xs, i)
  {
    seq(|xs|, i requires 0 <= i < |xs| => assert LinkAt(ls, xs, i); Find(ls, xs[i]).value)
  }

  /** Linked layers are shown in the order of their links. */
  lemma LinkedIsOrder(ls: seq<Layer>, p: Option<Name>, xs: seq<Name>)
    requires DistinctUids(ls) && Linked(ls, p, xs)
    ensures Sortable(Siblings(ls, p)) && Order(ls, p) == xs
  {
    var c, sibs := Records(ls, xs), Siblings(ls, p);
    SiblingsSpec(ls, p);
    LinkedRecords(ls, p, xs);
    SubsetPermutation(sibs, c);
    assert ChainOf(c, sibs);
    OrderedUnique(sibs, sibs, c);
    assert Uids(c) == xs;
  }

  lemma LinkedRecords(ls: seq<Layer>, p: Option<Name>, xs: seq<Name>)
    requires DistinctUids(ls) && Linked(ls, p, xs)
    ensures IsChain(Records(ls, xs)) && Distinct(Records(ls, xs)) && Distinct(Siblings(ls, p))
    ensures forall l :: l in Records(ls, xs) <==> l in Siblings(ls, p)
    ensures forall i :: 0 <= i < |xs| ==> Records(ls, xs)[i].uid == xs[i]
  {
    var c := Records(ls, xs);
    SiblingsSpec(ls, p);
    forall i | 0 <= i < |c|
      ensures c[i].uid == xs[i] && LinkedAt(c, i) && c[i] in ls && c[i].parent == p
    {
      assert LinkAt(ls, xs, i) && xs[i] in xs && Under(ls, p, xs[i]);
      assert i > 0 ==> LinkAt(ls, xs, i - 1);
    }
    forall l | l in ls && l.parent == p
      ensures l in c
    {
      FindUnique(ls, l);
      assert Under(ls, p, l.uid);
      var i :| 0 <= i < |xs| && xs[i] == l.uid;
      assert c[i] == l;
    }
  }

  lemma {:induction false} ChainLinkAt(ls: seq<Layer>, p: Option<Name>, i: nat)
    requires DistinctUids(ls) && Sortable(Siblings(ls, p)) && i < |Order(ls, p)|
    ensures LinkAt(ls, Order(ls, p), i) && Under(ls, p, Order(ls, p)[i])
  {
    var c := Ordered(Siblings(ls, p));
    SiblingsSpec(ls, p);
    assert c[i] in c && LinkedAt(c, i);
    SameElements(c, Siblings(ls, p), c[i]);
    FindUnique(ls, c[i]);
  }

  lemma {:induction false} ChainHolds(ls: seq<Layer>, p: Option<Name>, u: Name)
    requires DistinctUids(ls) && Sortable(Siblings(ls, p)) && Under(ls, p, u)
    ensures u in Order(ls, p)
  {
    var c, l := Ordered(Siblings(ls, p)), Find(ls, u).value;
    SiblingsSpec(ls, p);
    SameElements(c, Siblings(ls, p), l);
    var i :| 0 <= i < |c| && c[i] == l;
    assert Order(ls, p)[i] == u;
  }

  /** Layers that form a chain are linked in the order they are shown. */
  lemma {:induction false} ChainIsLinked(ls: seq<Layer>, p: Option<Name>)
    requires DistinctUids(ls) && Sortable(Siblings(ls, p))
    ensures Linked(ls, p, Order(ls, p))
  {
    var xs := Order(ls, p);
    forall i | 0 <= i < |xs|
      ensures LinkAt(ls, xs, i) && Under(ls, p, xs[i])
    {
      ChainLinkAt(ls, p, i);
    }
    forall u | Under(ls, p, u)
      ensures u in xs
    {
      ChainHolds(ls, p, u);
    }
    ChainShowsOnce(ls, p);
  }

  lemma ChainShowsOnce(ls: seq<Layer>, p: Option<Name>)
    requires Sortable(Siblings(ls, p))
    ensures Distinct(Order(ls, p))
  {
    DistinctByUids(Ordered(Siblings(ls, p)));
  }

  // ----- Insertion and removal by position -----

  lemma {:induction false} InsertAt(xs: seq<Name>, after: Option<Name>, uid: Name) returns (k: nat)
    requires Distinct(xs) && (after.Some? ==> after.value in xs)
    ensures k <= |xs| && InsertAfter(xs, after, uid) == xs[..k] + [uid] + xs[k..]
    ensures after == if k == 0 then None else Some(xs[k - 1])
  {
    if after.None? {
      k := 0;
    } else if xs[0] == after.value {
      k := 1;
    } else {
      var j := InsertAt(xs[1..], after, uid);
      k := j + 1;
      assert xs[..k] + [uid] + xs[k..] == [xs[0]] + (xs[1..][..j] + [uid] + xs[1..][j..]);
    }
  }

  lemma {:induction false} RemoveAbsent(xs: seq<Name>, uid: Name)
    requires uid !in xs
    ensures Remove(xs, uid) == xs
  {
    if xs != [] {
      RemoveAbsent(xs[1..], uid);
    }
  }

  lemma {:induction false} RemoveAt(xs: seq<Name>, uid: Name, k: nat)
    requires Distinct(xs) && k < |xs| && xs[k] == uid
    ensures Remove(xs, uid) == xs[..k] + xs[k + 1..]
  {
    if k == 0 {
      assert xs[1..] == xs[..0] + xs[1..];
      RemoveAbsent(xs[1..], uid);
    } else {
      RemoveAt(xs[1..], uid, k - 1);
      assert xs[..k] + xs[k + 1..] == [xs[0]] + (xs[1..][..k - 1] + xs[1..][k..]);
    }
  }

  // ----- Adding -----

  ghost predicate CanAdd(ls: seq<Layer>, layer: Layer) {
    && Find(ls, layer.uid).None?
    && (layer.after.Some? ==> Under(ls, layer.parent, layer.after.value))
  }

  lemma FindAdd(ls: seq<Layer>, layer: Layer, u: Name)
    requires DistinctUids(ls) && Find(ls, layer.uid).None?
    ensures Find(AddLayer(ls, layer), u) ==
      if u == layer.uid then Some(layer)
      else if Find(ls, u).Some? && Find(ls, u).value.parent == layer.parent && Find(ls, u).value.after == layer.after
      then Some(Find(ls, u).value.(after := Some(layer.uid)))
      else Find(ls, u)
  {
    FindFixup(ls, Some(layer.uid), layer.parent, layer.after, u);
    FindAppend(Fixup(ls, Some(layer.uid), layer.parent, layer.after), layer, u);
  }

  lemma AddLinkedOther(ls: seq<Layer>, layer: Layer, q: Option<Name>, xs: seq<Name>)
    requires DistinctUids(ls) && CanAdd(ls, layer) && q != layer.parent && Linked(ls, q, xs)
    ensures Linked(AddLayer(ls, layer), q, xs)
  {
    var ls' := AddLayer(ls, layer);
    forall u
      ensures Under(ls', q, u) <==> Under(ls, q, u)
    {
      FindAdd(ls, layer, u);
    }
    forall i | 0 <= i < |xs|
      ensures LinkAt(ls', xs, i)
    {
      assert LinkAt(ls, xs, i) && xs[i] in xs && Under(ls, q, xs[i]);
      FindAdd(ls, layer, xs[i]);
    }
  }

  lemma {:induction false} AddLinkAt(ls: seq<Layer>, layer: Layer, xs: seq<Name>, k: nat, i: nat)
    requires DistinctUids(ls) && CanAdd(ls, layer) && Linked(ls, layer.parent, xs)
    requires k <= |xs| && layer.after == (if k == 0 then None else Some(xs[k - 1])) && i <= |xs|
    ensures LinkAt(AddLayer(ls, layer), xs[..k] + [layer.uid] + xs[k..], i)
  {
    var ys := xs[..k] + [layer.uid] + xs[k..];
    FindAdd(ls, layer, ys[i]);
    if i != k {
      var j := if i < k then i else i - 1;
      assert ys[i] == xs[j] && LinkAt(ls, xs, j) && xs[j] in xs && Under(ls, layer.parent, xs[j]);
      assert Pred(xs, j) == layer.after <==> j == k;
    }
  }

  /** Under the layer's parent, adding it inserts its uid right after the one it names. */
  lemma {:induction false} AddLinked(ls: seq<Layer>, layer: Layer, xs: seq<Name>)
    requires DistinctUids(ls) && CanAdd(ls, layer) && Linked(ls, layer.parent, xs)
    ensures Linked(AddLayer(ls, layer), layer.parent, InsertAfter(xs, layer.after, layer.uid))
  {
    var ls' := AddLayer(ls, layer);
    var k := InsertAt(xs, layer.after, layer.uid);
    var ys := xs[..k] + [layer.uid] + xs[k..];
    assert layer.uid !in xs by { assert !Under(ls, layer.parent, layer.uid); }
    forall i | 0 <= i < |ys|
      ensures LinkAt(ls', ys, i)
    {
      AddLinkAt(ls, layer, xs, k, i);
    }
    forall u
      ensures u in ys <==> Under(ls', layer.parent, u)
    {
      FindAdd(ls, layer, u);
      assert u in ys <==> u in xs || u == layer.uid;
    }
  }

  // ----- Deleting -----

  lemma FindDelete(ls: seq<Layer>, uid: Name, u: Name)
    requires DistinctUids(ls) && Find(ls, uid).Some?
    ensures var layer := Find(ls, uid).value;
      Find(DeleteLayer(ls, uid), u) ==
      if u == uid then None
      else if Find(ls, u).Some? && Follows(Find(ls, u).value, layer.after, layer.parent, Some(uid))
      then Some(Find(ls, u).value.(after := layer.after))
      else Find(ls, u)
  {
    var layer := Find(ls, uid).value;
    FindFixup(ls, layer.after, layer.parent, Some(uid), u);
    FindDrop(Fixup(ls, layer.after, layer.parent, Some(uid)), uid, u);
  }

  lemma DeleteLinkedOther(ls: seq<Layer>, uid: Name, q: Option<Name>, xs: seq<Name>)
    requires DistinctUids(ls) && Find(ls, uid).Some? && q != Find(ls, uid).value.parent && Linked(ls, q, xs)
    ensures Linked(DeleteLayer(ls, uid), q, xs) && Remove(xs, uid) == xs
  {
    var ls' := DeleteLayer(ls, uid);
    assert !Under(ls, q, uid);
    RemoveAbsent(xs, uid);
    forall u
      ensures Under(ls', q, u) <==> Under(ls, q, u)
    {
      FindDelete(ls, uid, u);
    }
    forall i | 0 <= i < |xs|
      ensures LinkAt(ls', xs, i)
    {
      assert LinkAt(ls, xs, i) && xs[i] in xs && Under(ls, q, xs[i]);
      FindDelete(ls, uid, xs[i]);
    }
  }

  lemma {:induction false} PredOnce(xs: seq<Name>, k: nat, j: nat)
    requires Distinct(xs) && k < |xs| && j < |xs|
    ensures Pred(xs, j) == Some(xs[k]) <==> j == k + 1
  {
  }

  lemma {:induction false} PredWithout(xs: seq<Name>, k: nat, i: nat)
    requires k < |xs| && i < |xs| - 1
    ensures var ys, j := xs[..k] + xs[k + 1..], if i < k then i else i + 1;
      ys[i] == xs[j] && Pred(ys, i) == if j == k + 1 then Pred(xs, k) else Pred(xs, j)
  {
  }

  lemma {:induction false} DeleteLinkAt(ls: seq<Layer>, uid: Name, xs: seq<Name>, k: nat, i: nat)
    requires DistinctUids(ls) && Find(ls, uid).Some? && Linked(ls, Find(ls, uid).value.parent, xs)
    requires k < |xs| && xs[k] == uid && i < |xs| - 1
    ensures LinkAt(DeleteLayer(ls, uid), xs[..k] + xs[k + 1..], i)
  {
    var ys := xs[..k] + xs[k + 1..];
    var j := if i < k then i else i + 1;
    assert LinkAt(ls, xs, j) && LinkAt(ls, xs, k) && xs[j] in xs;
    assert Under(ls, Find(ls, uid).value.parent, xs[j]);
    PredOnce(xs, k, j);
    FindDelete(ls, uid, xs[j]);
    PredWithout(xs, k, i);
  }

  lemma {:induction false} DeleteLinked(ls: seq<Layer>, uid: Name, xs: seq<Name>)
    requires DistinctUids(ls) && Find(ls, uid).Some? && Linked(ls, Find(ls, uid).value.parent, xs)
    ensures Linked(DeleteLayer(ls, uid), Find(ls, uid).value.parent, Remove(xs, uid))
  {
    var ls', p := DeleteLayer(ls, uid), Find(ls, uid).value.parent;
    assert Under(ls, p, uid);
    var k :| 0 <= k < |xs| && xs[k] == uid;
    RemoveAt(xs, uid, k);
    var ys := xs[..k] + xs[k + 1..];
    forall i | 0 <= i < |ys|
      ensures LinkAt(ls', ys, i)
    {
      DeleteLinkAt(ls, uid, xs, k, i);
    }
    assert xs == xs[..k] + [uid] + xs[k + 1..];
    forall u
      ensures u in ys <==> Under(ls', p, u)
    {
      FindDelete(ls, uid, u);
      assert u in ys <==> u in xs && u != uid;
    }
  }

  // ----- The operations on chained layers -----

  lemma LinkedEverywhere(ls: seq<Layer>)
    requires Chained(ls)
    ensures forall p :: Linked(ls, p, Order(ls, p))
  {
    forall p
      ensures Linked(ls, p, Order(ls, p))
    {
      ChainIsLinked(ls, p);
    }
  }

  lemma AddDistinct(ls: seq<Layer>, layer: Layer)
    requires DistinctUids(ls) && Find(ls, layer.uid).None?
    ensures DistinctUids(AddLayer(ls, layer))
  {
    var fixed := Fixup(ls, Some(layer.uid), layer.parent, layer.after);
    FixupDistinct(ls, Some(layer.uid), layer.parent, layer.after);
    FindFixup(ls, Some(layer.uid), layer.parent, layer.after, layer.uid);
    AppendDistinct(fixed, layer);
  }

  ghost function AddedOrder(xs: seq<Name>, here: bool, after: Option<Name>, uid: Name): seq<Name> {
    if here then InsertAfter(xs, after, uid) else xs
  }

  /** Adding keeps every chain whole; under its parent the layer goes right after the one it
      names, everywhere else nothing changes. */
  lemma AddRefines(ls: seq<Layer>, layer: Layer)
    requires Chained(ls) && CanAdd(ls, layer)
    ensures Chained(AddLayer(ls, layer))
    ensures forall q :: Order(AddLayer(ls, layer), q) == AddedOrder(Order(ls, q), q == layer.parent, layer.after, layer.uid)
  {
    var ls' := AddLayer(ls, layer);
    AddDistinct(ls, layer);
    forall q
      ensures Sortable(Siblings(ls', q))
      ensures Order(ls', q) == AddedOrder(Order(ls, q), q == layer.parent, layer.after, layer.uid)
    {
      ChainIsLinked(ls, q);
      if q == layer.parent {
        AddLinked(ls, layer, Order(ls, q));
        LinkedIsOrder(ls', q, InsertAfter(Order(ls, q), layer.after, layer.uid));
      } else {
        AddLinkedOther(ls, layer, q, Order(ls, q));
        LinkedIsOrder(ls', q, Order(ls, q));
      }
    }
  }

  /** The caller's side of adding is exactly what it takes to keep the chains: a fresh uid,
      and a predecessor that is a sibling under the same parent. */
  lemma AddKeepsChainIff(ls: seq<Layer>, layer: Layer)
    requires Chained(ls)
    ensures Chained(AddLayer(ls, layer)) <==> CanAdd(ls, layer)
  {
    if CanAdd(ls, layer) { AddRefines(ls, layer); }
    if Chained(AddLayer(ls, layer)) {
      var ls', p := AddLayer(ls, layer), layer.parent;
      AddedWasFresh(ls, layer);
      ChainIsLinked(ls', p);
      FindAdd(ls, layer, layer.uid);
      assert Under(ls', p, layer.uid);
      LinkedAfterIsSibling(ls', p, layer.uid);
      if layer.after.Some? { FindAdd(ls, layer, layer.after.value); }
    }
  }

  lemma LastUidFresh(ls: seq<Layer>, layer: Layer)
    requires DistinctUids(ls + [layer])
    ensures forall l :: l in ls ==> l.uid != layer.uid
  {
    var all := ls + [layer];
    forall i | 0 <= i < |ls|
      ensures ls[i].uid != layer.uid
    {
      assert all[i] == ls[i] && all[|ls|] == layer;
    }
  }

  lemma AddedWasFresh(ls: seq<Layer>, layer: Layer)
    requires DistinctUids(ls) && DistinctUids(AddLayer(ls, layer))
    ensures Find(ls, layer.uid).None?
  {
    var fixed := Fixup(ls, Some(layer.uid), layer.parent, layer.after);
    FindFixup(ls, Some(layer.uid), layer.parent, layer.after, layer.uid);
    LastUidFresh(fixed, layer);
  }

  /** In a chain, the layer named as predecessor is another layer under the same parent. */
  lemma LinkedAfterIsSibling(ls: seq<Layer>, p: Option<Name>, u: Name)
    requires Linked(ls, p, Order(ls, p)) && Under(ls, p, u)
    ensures var a := Find(ls, u).value.after; a.Some? ==> a.value != u && Under(ls, p, a.value)
  {
    var xs := Order(ls, p);
    var i :| 0 <= i < |xs| && xs[i] == u;
    assert LinkAt(ls, xs, i);
    if i > 0 { assert xs[i - 1] in xs; }
  }

  lemma DeleteDistinct(ls: seq<Layer>, uid: Name)
    requires DistinctUids(ls)
    ensures DistinctUids(DeleteLayer(ls, uid))
  {
    var found := Find(ls, uid);
    if found.Some? {
      FixupDistinct(ls, found.value.after, found.value.parent, Some(uid));
      DropDistinct(Fixup(ls, found.value.after, found.value.parent, Some(uid)), uid);
    }
  }

  /** Deleting keeps every chain whole and removes the uid from wherever it was listed. */
  lemma DeleteRefines(ls: seq<Layer>, uid: Name)
    requires Chained(ls)
    ensures Chained(DeleteLayer(ls, uid))
    ensures forall q :: Order(DeleteLayer(ls, uid), q) == Remove(Order(ls, q), uid)
  {
    var ls' := DeleteLayer(ls, uid);
    DeleteDistinct(ls, uid);
    forall q
      ensures Sortable(Siblings(ls', q)) && Order(ls', q) == Remove(Order(ls, q), uid)
    {
      ChainIsLinked(ls, q);
      if Find(ls, uid).None? {
        assert !Under(ls, q, uid);
        RemoveAbsent(Order(ls, q), uid);
      } else {
        if q == Find(ls, uid).value.parent {
          DeleteLinked(ls, uid, Order(ls, q));
        } else {
          DeleteLinkedOther(ls, uid, q, Order(ls, q));
        }
        LinkedIsOrder(ls', q, Remove(Order(ls, q), uid));
      }
    }
  }

  // ----- Moving is deleting and adding again -----

  ghost predicate CanMove(ls: seq<Layer>, uid: Name, parent: Option<Name>, after: Option<Name>) {
    && Find(ls, uid).Some?
    && (after.Some? ==> after.value != uid && Under(ls, parent, after.value))
  }

  /** The layer as it is stored after the move. */
  function Moved(ls: seq<Layer>, uid: Name, parent: Option<Name>, after: Option<Name>): Layer
    requires Find(ls, uid).Some?
  {
    Find(ls, uid).value.(parent := parent, after := after)
  }

  lemma MoveDistinct(ls: seq<Layer>, uid: Name, parent: Option<Name>, after: Option<Name>)
    requires DistinctUids(ls) && Find(ls, uid).Some?
    ensures DistinctUids(MoveLayer(ls, uid, parent, after))
  {
    var layer := Find(ls, uid).value;
    var unlinked := Fixup(ls, layer.after, layer.parent, Some(uid));
    var linked := Fixup(unlinked, Some(uid), parent, after);
    FixupDistinct(ls, layer.after, layer.parent, Some(uid));
    FixupDistinct(unlinked, Some(uid), parent, after);
    SetFirstDistinct(linked, uid, (l: Layer) => l.(parent := parent, after := None));
    SetFirstDistinct(linked, uid, (l: Layer) => l.(after := after));
    SetFirstDistinct(SetParent(linked, uid, parent), uid, (l: Layer) => l.(after := after));
  }

  lemma FindMove(ls: seq<Layer>, uid: Name, parent: Option<Name>, after: Option<Name>, u: Name)
    requires DistinctUids(ls) && Find(ls, uid).Some?
    ensures var layer := Find(ls, uid).value;
      var unlinked := Fixup(ls, layer.after, layer.parent, Some(uid));
      Find(MoveLayer(ls, uid, parent, after), u) ==
      if u == uid then Some(Moved(ls, uid, parent, after))
      else Find(Fixup(unlinked, Some(uid), parent, after), u)
  {
    var layer := Find(ls, uid).value;
    var unlinked := Fixup(ls, layer.after, layer.parent, Some(uid));
    var linked := Fixup(unlinked, Some(uid), parent, after);
    FindFixup(ls, layer.after, layer.parent, Some(uid), uid);
    FixupDistinct(ls, layer.after, layer.parent, Some(uid));
    FindFixup(unlinked, Some(uid), parent, after, uid);
    FindPlaced(linked, layer, uid, parent, after, u);
  }

  /** Storing the new place changes this one layer only; `setAfter` always finds the parent
      it expects. */
  lemma FindPlaced(linked: seq<Layer>, layer: Layer, uid: Name, parent: Option<Name>, after: Option<Name>, u: Name)
    requires Find(linked, uid) == Some(layer)
    ensures Find(Placed(linked, uid, layer.parent, parent, after), u) ==
            if u == uid then Some(layer.(parent := parent, after := after)) else Find(linked, u)
  {
    var setParent := (l: Layer) => l.(parent := parent, after := None);
    var setAfter := (l: Layer) => l.(after := after);
    FindSetFirst(linked, uid, setParent, u);
    FindSetFirst(linked, uid, setParent, uid);
    FindSetFirst(linked, uid, setAfter, u);
    FindSetFirst(SetFirst(linked, uid, setParent), uid, setAfter, u);
  }

  /** Looked up by uid, a move is the deletion of the layer followed by its addition at the
      new place. */
  lemma MoveIsDeleteThenAdd(ls: seq<Layer>, uid: Name, parent: Option<Name>, after: Option<Name>, u: Name)
    requires DistinctUids(ls) && Find(ls, uid).Some?
    ensures Find(MoveLayer(ls, uid, parent, after), u) ==
            Find(AddLayer(DeleteLayer(ls, uid), Moved(ls, uid, parent, after)), u)
  {
    var layer := Find(ls, uid).value;
    var unlinked := Fixup(ls, layer.after, layer.parent, Some(uid));
    FindMove(ls, uid, parent, after, u);
    FindFixup(ls, layer.after, layer.parent, Some(uid), u);
    FixupDistinct(ls, layer.after, layer.parent, Some(uid));
    FindFixup(unlinked, Some(uid), parent, after, u);
    DeleteDistinct(ls, uid);
    FindDelete(ls, uid, uid);
    FindDelete(ls, uid, u);
    FindAdd(DeleteLayer(ls, uid), Moved(ls, uid, parent, after), u);
  }

  lemma LinkedByLookup(ls: seq<Layer>, ms: seq<Layer>, p: Option<Name>, xs: seq<Name>)
    requires Linked(ls, p, xs) && forall u :: Find(ms, u) == Find(ls, u)
    ensures Linked(ms, p, xs)
  {
    forall u
      ensures Under(ms, p, u) <==> Under(ls, p, u)
    {
    }
    forall i | 0 <= i < |xs|
      ensures LinkAt(ms, xs, i)
    {
      assert LinkAt(ls, xs, i);
    }
  }

  lemma SameLookupsSameOrder(ls: seq<Layer>, ms: seq<Layer>)
    requires Chained(ls) && DistinctUids(ms) && forall u :: Find(ms, u) == Find(ls, u)
    ensures Chained(ms) && forall q :: Order(ms, q) == Order(ls, q)
  {
    forall q
      ensures Sortable(Siblings(ms, q)) && Order(ms, q) == Order(ls, q)
    {
      ChainIsLinked(ls, q);
      LinkedByLookup(ls, ms, q, Order(ls, q));
      LinkedIsOrder(ms, q, Order(ls, q));
    }
  }

  ghost function MovedOrder(xs: seq<Name>, here: bool, after: Option<Name>, uid: Name): seq<Name> {
    if here then InsertAfter(Remove(xs, uid), after, uid) else Remove(xs, uid)
  }

  /** Moving keeps every chain whole: the uid leaves its old place and goes right after the
      layer it is put behind, under the same or another parent. */
  lemma MoveRefines(ls: seq<Layer>, uid: Name, parent: Option<Name>, after: Option<Name>)
    requires Chained(ls) && CanMove(ls, uid, parent, after)
    ensures Chained(MoveLayer(ls, uid, parent, after))
    ensures forall q :: Order(MoveLayer(ls, uid, parent, after), q) == MovedOrder(Order(ls, q), q == parent, after, uid)
  {
    var gone, layer := DeleteLayer(ls, uid), Moved(ls, uid, parent, after);
    DeleteRefines(ls, uid);
    FindDelete(ls, uid, uid);
    if after.Some? { FindDelete(ls, uid, after.value); }
    AddRefines(gone, layer);
    MoveDistinct(ls, uid, parent, after);
    forall u
      ensures Find(MoveLayer(ls, uid, parent, after), u) == Find(AddLayer(gone, layer), u)
    {
      MoveIsDeleteThenAdd(ls, uid, parent, after, u);
    }
    SameLookupsSameOrder(AddLayer(gone, layer), MoveLayer(ls, uid, parent, after));
  }

  /** The caller's side of moving is exactly what it takes to keep the chains. */
  lemma MoveKeepsChainIff(ls: seq<Layer>, uid: Name, parent: Option<Name>, after: Option<Name>)
    requires Chained(ls) && Find(ls, uid).Some?
    ensures Chained(MoveLayer(ls, uid, parent, after)) <==> CanMove(ls, uid, parent, after)
  {
    if CanMove(ls, uid, parent, after) { MoveRefines(ls, uid, parent, after); }
    if Chained(MoveLayer(ls, uid, parent, after)) {
      var ls' := MoveLayer(ls, uid, parent, after);
      ChainIsLinked(ls', parent);
      FindMove(ls, uid, parent, after, uid);
      LinkedAfterIsSibling(ls', parent, uid);
      if after.Some? {
        MoveIsDeleteThenAdd(ls, uid, parent, after, after.value);
        DeleteDistinct(ls, uid);
        FindDelete(ls, uid, uid);
        FindDelete(ls, uid, after.value);
        FindAdd(DeleteLayer(ls, uid), Moved(ls, uid, parent, after), after.value);
      }
    }
  }

  // ----- Whole runs -----

  datatype LayerOp =
    | Add(layer: Layer)
    | Rename(uid: Name, name: Name)
    | Move(uid: Name, parent: Option<Name>, after: Option<Name>)
    | Delete(uid: Name)

  /** An operation that names a missing layer changes nothing. */
  function Do(ls: seq<Layer>, op: LayerOp): seq<Layer> {
    match op
    case Add(layer) => AddLayer(ls, layer)
    case Rename(uid, name) => SetName(ls, uid, name)
    case Move(uid, parent, after) => if Find(ls, uid).None? then ls else MoveLayer(ls, uid, parent, after)
    case Delete(uid) => DeleteLayer(ls, uid)
  }

  /** What the store leaves to its callers. */
  ghost predicate Permitted(ls: seq<Layer>, op: LayerOp) {
    match op
    case Add(layer) => CanAdd(ls, layer)
    case Move(uid, parent, after) => Find(ls, uid).None? || CanMove(ls, uid, parent, after)
    case _ => true
  }

  /** One ordered list of uids per parent. */
  type Lists = Option<Name> -> seq<Name>

  ghost function AbstractDo(lists: Lists, op: LayerOp): Lists {
    match op
    case Add(layer) => (q: Option<Name>) => AddedOrder(lists(q), q == layer.parent, layer.after, layer.uid)
    case Rename(_, _) => lists
    case Move(uid, parent, after) =>
      if exists q :: uid in lists(q)
      then (q: Option<Name>) => MovedOrder(lists(q), q == parent, after, uid)
      else lists
    case Delete(uid) => (q: Option<Name>) => Remove(lists(q), uid)
  }

  ghost function LayersAfter(ops: seq<LayerOp>): seq<Layer> {
    if ops == [] then [] else Do(LayersAfter(ops[..|ops| - 1]), ops[|ops| - 1])
  }

  ghost function ListsAfter(ops: seq<LayerOp>): Lists {
    if ops == [] then (_ => []) else AbstractDo(ListsAfter(ops[..|ops| - 1]), ops[|ops| - 1])
  }

  ghost predicate PermittedRun(ops: seq<LayerOp>) {
    ops == [] ||
    (PermittedRun(ops[..|ops| - 1]) && Permitted(LayersAfter(ops[..|ops| - 1]), ops[|ops| - 1]))
  }

  /** Renaming gives the layer its new name and touches nothing else. */
  lemma {:induction false} FindRename(ls: seq<Layer>, uid: Name, name: Name, u: Name)
    ensures Find(SetName(ls, uid, name), u) ==
      if u == uid && Find(ls, u).Some? then Some(Find(ls, u).value.(name := Some(name))) else Find(ls, u)
  {
    FindSetFirst(ls, uid, (l: Layer) => l.(name := Some(name)), u);
  }

  lemma RenameRefines(ls: seq<Layer>, uid: Name, name: Name)
    requires Chained(ls)
    ensures Chained(SetName(ls, uid, name))
    ensures forall q :: Order(SetName(ls, uid, name), q) == Order(ls, q)
  {
    var f := (l: Layer) => l.(name := Some(name));
    var ms := SetFirst(ls, uid, f);
    SetFirstDistinct(ls, uid, f);
    forall q
      ensures Sortable(Siblings(ms, q)) && Order(ms, q) == Order(ls, q)
    {
      var xs := Order(ls, q);
      ChainIsLinked(ls, q);
      forall u
        ensures Under(ms, q, u) <==> Under(ls, q, u)
      {
        FindSetFirst(ls, uid, f, u);
      }
      forall i | 0 <= i < |xs|
        ensures LinkAt(ms, xs, i)
      {
        assert LinkAt(ls, xs, i);
        FindSetFirst(ls, uid, f, xs[i]);
      }
      LinkedIsOrder(ms, q, xs);
    }
  }

  /** A layer is listed under some parent exactly when it is stored. */
  lemma ListedIffStored(ls: seq<Layer>, uid: Name)
    requires Chained(ls)
    ensures Find(ls, uid).Some? <==> exists q :: uid in Order(ls, q)
  {
    LinkedEverywhere(ls);
    if Find(ls, uid).Some? {
      var q := Find(ls, uid).value.parent;
      assert Under(ls, q, uid) && uid in Order(ls, q);
    }
    if q :| uid in Order(ls, q) {
      assert Linked(ls, q, Order(ls, q)) && Under(ls, q, uid);
    }
  }

  lemma DoRefines(ls: seq<Layer>, lists: Lists, op: LayerOp)
    requires Chained(ls) && Permitted(ls, op) && forall q :: Order(ls, q) == lists(q)
    ensures Chained(Do(ls, op))
    ensures forall q :: Order(Do(ls, op), q) == AbstractDo(lists, op)(q)
  {
    match op
    case Add(layer) => AddRefines(ls, layer);
    case Rename(uid, name) => RenameRefines(ls, uid, name);
    case Move(uid, parent, after) =>
      ListedIffStored(ls, uid);
      assert (exists q :: uid in lists(q)) <==> (exists q :: uid in Order(ls, q));
      if Find(ls, uid).Some? { MoveRefines(ls, uid, parent, after); }
    case Delete(uid) => DeleteRefines(ls, uid);
  }

  /** After every permitted run of operations each parent's layers are one chain, shown in
      the order the run gives on plain lists. */
  lemma {:induction false} RunsRefine(ops: seq<LayerOp>)
    requires PermittedRun(ops)
    ensures Chained(LayersAfter(ops))
    ensures forall q :: Order(LayersAfter(ops), q) == ListsAfter(ops)(q)
  {
    if ops == [] {
      forall q: Option<Name>
        ensures Sortable(Siblings([], q)) && Order([], q) == []
      {
        assert Linked([], q, []);
        LinkedIsOrder([], q, []);
      }
    } else {
      var front := ops[..|ops| - 1];
      RunsRefine(front);
      DoRefines(LayersAfter(front), ListsAfter(front), ops[|ops| - 1]);
    }
  }
}
