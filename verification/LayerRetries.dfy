/**
 What repeating an operation on layers does after an append failed between its events: an add
 and a delete complete; a move does exactly if its follower is still found.
 */
module LayerRetries {
  import opened Common
  import opened LayerOrder
  import opened LayerChains
  import opened LayerFailures
  import opened LayerSafety
  import opened Missions

  /** Followers relinked once are not found again. */
  lemma {:induction false} FixupTwice(ls: seq<Layer>, uid: Option<Name>, parent: Option<Name>, after: Option<Name>)
    requires DistinctUids(ls)
    ensures var ms := Fixup(ls, uid, parent, after); Fixup(ms, uid, parent, after) == ms
  {
    var ms := Fixup(ls, uid, parent, after);
    FixupDistinct(ls, uid, parent, after);
    UidsSetAfters(ms, Targets(ms, uid, parent, after), uid);
    forall u
      ensures Find(Fixup(ms, uid, parent, after), u) == Find(ms, u)
    {
      FindFixup(ls, uid, parent, after, u);
      FindFixup(ms, uid, parent, after, u);
    }
    SameByLookup(ms, Fixup(ms, uid, parent, after));
  }

  /** Repeated, a failed add ends where it would have. */
  lemma {:induction false} AddRepeats(ls: seq<Layer>, layer: Layer, left: seq<Layer>)
    requires DistinctUids(ls) && LeftByAdd(ls, layer, left)
    ensures AddLayer(left, layer) == AddLayer(ls, layer)
  {
    FixupTwice(ls, Some(layer.uid), layer.parent, layer.after);
  }

  /** Repeated, a failed delete ends where it would have. */
  lemma {:induction false} DeleteRepeats(ls: seq<Layer>, uid: Name, left: seq<Layer>)
    requires DistinctUids(ls) && Find(ls, uid).Some? && LeftByDelete(ls, Find(ls, uid).value, left)
    ensures DeleteLayer(left, uid) == DeleteLayer(ls, uid)
  {
    var layer := Find(ls, uid).value;
    FixupTwice(ls, layer.after, layer.parent, Some(uid));
    FindFixup(ls, layer.after, layer.parent, Some(uid), uid);
  }

  // ----- Repeating a move -----

  /** In the layers without `uid` nothing comes after it. */
  lemma {:induction false} NothingAfterGone(ls: seq<Layer>, uid: Name, u: Name)
    requires Chained(ls) && Find(ls, uid).Some?
    ensures var l := Find(DeleteLayer(ls, uid), u); l.Some? ==> l.value.after != Some(uid)
  {
    var gone := DeleteLayer(ls, uid);
    DeleteRefines(ls, uid);
    FindDelete(ls, uid, uid);
    if Find(gone, u).Some? {
      var p := Find(gone, u).value.parent;
      ChainIsLinked(gone, p);
      assert Under(gone, p, u);
      LinkedAfterIsSibling(gone, p, u);
    }
  }

  /** Only one layer is displaced. */
  lemma {:induction false} OneDisplaced(ls: seq<Layer>, uid: Name, parent: Option<Name>, after: Option<Name>,
                                        u: Name, v: Name)
    requires Chained(ls) && Find(ls, uid).Some?
    requires Displaced(ls, uid, parent, after, u) && Displaced(ls, uid, parent, after, v)
    ensures u == v
  {
    DeleteRefines(ls, uid);
    ChainIsLinked(DeleteLayer(ls, uid), parent);
    OneFollower(DeleteLayer(ls, uid), parent, u, v);
  }

  /** The layers before the moved layer's own place is stored. */
  lemma {:induction false} FindRelinking(ls: seq<Layer>, uid: Name, parent: Option<Name>, after: Option<Name>, u: Name)
    requires Chained(ls) && CanMove(ls, uid, parent, after)
    ensures DistinctUids(Relinking(ls, Find(ls, uid).value, parent, after))
    ensures Find(Relinking(ls, Find(ls, uid).value, parent, after), u) ==
      if u == uid then Find(ls, uid)
      else if Displaced(ls, uid, parent, after, u) then Some(Find(DeleteLayer(ls, uid), u).value.(after := Some(uid)))
      else Find(DeleteLayer(ls, uid), u)
  {
    var layer := Find(ls, uid).value;
    NotAfterItself(ls, uid);
    FixupDistinct(ls, layer.after, layer.parent, Some(uid));
    FixupDistinct(Unlinked(ls, layer), Some(uid), parent, after);
    UnlinkedIsDeleted(ls, uid, u);
    FindFixup(Unlinked(ls, layer), Some(uid), parent, after, u);
  }

  lemma {:induction false} FindReparented(ls: seq<Layer>, uid: Name, parent: Option<Name>, after: Option<Name>, u: Name)
    requires Chained(ls) && CanMove(ls, uid, parent, after)
    ensures DistinctUids(Reparented(ls, Find(ls, uid).value, parent, after))
    ensures Find(Reparented(ls, Find(ls, uid).value, parent, after), u) ==
      if u == uid then Some(Find(ls, uid).value.(parent := parent, after := None))
      else Find(Relinking(ls, Find(ls, uid).value, parent, after), u)
  {
    var relinked := Relinking(ls, Find(ls, uid).value, parent, after);
    var setParent := (l: Layer) => l.(parent := parent, after := None);
    NotAfterItself(ls, uid);
    FindRelinking(ls, uid, parent, after, uid);
    SetFirstDistinct(relinked, uid, setParent);
    FindSetFirst(relinked, uid, setParent, u);
  }

  lemma {:induction false} FindMoved(ls: seq<Layer>, uid: Name, parent: Option<Name>, after: Option<Name>, u: Name)
    requires Chained(ls) && CanMove(ls, uid, parent, after)
    ensures Find(MoveLayer(ls, uid, parent, after), u) ==
      if u == uid then Some(Find(ls, uid).value.(parent := parent, after := after))
      else Find(Relinking(ls, Find(ls, uid).value, parent, after), u)
  {
    NotAfterItself(ls, uid);
    FindMove(ls, uid, parent, after, u);
    FindRelinking(ls, uid, parent, after, u);
    FindFixup(ls, Find(ls, uid).value.after, Find(ls, uid).value.parent, Some(uid), u);
  }

  /** After a repeat from the relinked layers one link can be lost: that of the displaced layer,
      relinked past the moved one a second time. */
  lemma {:induction false} FindRepeatRelinking(ls: seq<Layer>, uid: Name, parent: Option<Name>,
                                               after: Option<Name>, u: Name)
    requires Chained(ls) && CanMove(ls, uid, parent, after)
    ensures var layer := Find(ls, uid).value;
      var left := Relinking(ls, layer, parent, after);
      && Find(left, uid) == Some(layer)
      && Find(MoveLayer(left, uid, parent, after), u) ==
         if Displaced(ls, uid, parent, after, u)
            && layer.parent == parent && layer.after != after && layer.after != Some(u)
         then Some(Find(DeleteLayer(ls, uid), u).value.(after := layer.after))
         else Find(MoveLayer(ls, uid, parent, after), u)
  {
    var layer := Find(ls, uid).value;
    var left := Relinking(ls, layer, parent, after);
    NotAfterItself(ls, uid);
    NothingAfterGone(ls, uid, u);
    FindRelinking(ls, uid, parent, after, uid);
    FindRelinking(ls, uid, parent, after, u);
    FindMoved(ls, uid, parent, after, u);
    FindMove(left, uid, parent, after, u);
    FixupDistinct(left, layer.after, layer.parent, Some(uid));
    FindFixup(left, layer.after, layer.parent, Some(uid), u);
    FindFixup(Unlinked(left, layer), Some(uid), parent, after, u);
  }

  /** With the parent stored too, the layer comes first for now, and so does the displaced one. */
  lemma {:induction false} FindRepeatReparented(ls: seq<Layer>, uid: Name, parent: Option<Name>,
                                                after: Option<Name>, u: Name)
    requires Chained(ls) && CanMove(ls, uid, parent, after)
    ensures var layer := Find(ls, uid).value;
      var left := Reparented(ls, layer, parent, after);
      && Find(left, uid) == Some(layer.(parent := parent, after := None))
      && Find(MoveLayer(left, uid, parent, after), u) ==
         if Displaced(ls, uid, parent, after, u) && after.Some?
         then Some(Find(DeleteLayer(ls, uid), u).value.(after := None))
         else Find(MoveLayer(ls, uid, parent, after), u)
  {
    var layer := Find(ls, uid).value;
    var left, now := Reparented(ls, layer, parent, after), layer.(parent := parent, after := None);
    NotAfterItself(ls, uid);
    NothingAfterGone(ls, uid, u);
    FindRelinking(ls, uid, parent, after, u);
    FindReparented(ls, uid, parent, after, uid);
    FindReparented(ls, uid, parent, after, u);
    FindMoved(ls, uid, parent, after, u);
    FindMove(left, uid, parent, after, u);
    FixupDistinct(left, None, parent, Some(uid));
    FindFixup(left, None, parent, Some(uid), u);
    FindFixup(Unlinked(left, now), Some(uid), parent, after, u);
  }

  lemma {:induction false} MoveUids(ls: seq<Layer>, uid: Name, parent: Option<Name>, after: Option<Name>)
    requires Find(ls, uid).Some?
    ensures Uids(MoveLayer(ls, uid, parent, after)) == Uids(ls)
  {
    var layer := Find(ls, uid).value;
    var unlinked := Fixup(ls, layer.after, layer.parent, Some(uid));
    var linked := Fixup(unlinked, Some(uid), parent, after);
    UidsSetAfters(ls, Targets(ls, layer.after, layer.parent, Some(uid)), layer.after);
    UidsSetAfters(unlinked, Targets(unlinked, Some(uid), parent, after), Some(uid));
    UidsSetFirst(linked, uid, (l: Layer) => l.(parent := parent, after := None));
    UidsSetFirst(linked, uid, (l: Layer) => l.(after := after));
    UidsSetFirst(SetParent(linked, uid, parent), uid, (l: Layer) => l.(after := after));
  }

  lemma {:induction false} RelinkingUids(ls: seq<Layer>, layer: Layer, parent: Option<Name>, after: Option<Name>)
    ensures Uids(Relinking(ls, layer, parent, after)) == Uids(ls)
    ensures Uids(Reparented(ls, layer, parent, after)) == Uids(ls)
  {
    var unlinked := Unlinked(ls, layer);
    UidsSetAfters(ls, Targets(ls, layer.after, layer.parent, Some(layer.uid)), layer.after);
    UidsSetAfters(unlinked, Targets(unlinked, Some(layer.uid), parent, after), Some(layer.uid));
    UidsSetFirst(Relinking(ls, layer, parent, after), layer.uid, (l: Layer) => l.(parent := parent, after := None));
  }

  /** Moves that agree on every lookup agree. */
  lemma {:induction false} SameMove(ls: seq<Layer>, left: seq<Layer>, uid: Name, parent: Option<Name>,
                                    after: Option<Name>)
    requires DistinctUids(ls) && Uids(left) == Uids(ls) && Find(ls, uid).Some? && Find(left, uid).Some?
    requires forall u :: Find(MoveLayer(left, uid, parent, after), u) == Find(MoveLayer(ls, uid, parent, after), u)
    ensures MoveLayer(left, uid, parent, after) == MoveLayer(ls, uid, parent, after)
  {
    MoveUids(ls, uid, parent, after);
    MoveUids(left, uid, parent, after);
    MoveDistinct(ls, uid, parent, after);
    SameByLookup(MoveLayer(ls, uid, parent, after), MoveLayer(left, uid, parent, after));
  }

  /** One link lost breaks the chain. */
  lemma {:induction false} LostLink(ls: seq<Layer>, ms: seq<Layer>, p: Option<Name>, t: Name, after: Option<Name>)
    requires Chained(ls) && Relinked(ls, ms, t, after) && Under(ls, p, t) && Find(ls, t).value.after != after
    ensures !Chained(ms) && ms != ls
  {
    if Chained(ms) {
      ChainIsLinked(ls, p);
      ChainIsLinked(ms, p);
      OneLink(ls, ms, p, Order(ls, p), Order(ms, p), t, after);
    }
  }

  /** The relinked layers are repeatable if nothing is displaced, the old follower is not looked for
      where the new one is, or the layer is put back or one place up. */
  ghost predicate RelinkingRepeats(ls: seq<Layer>, layer: Layer, parent: Option<Name>, after: Option<Name>) {
    || GoesLast(ls, layer.uid, parent, after) || layer.parent != parent || layer.after == after
    || (layer.after.Some? && Behind(ls, parent, after, layer.after.value))
  }

  /** The layer in front of the moved one is displaced exactly if the move is one place up. */
  lemma {:induction false} OnePlaceUp(ls: seq<Layer>, uid: Name, parent: Option<Name>, after: Option<Name>, f: Name)
    requires Chained(ls) && Find(ls, uid).Some? && Find(ls, uid).value.after == Some(f)
    requires Find(ls, uid).value.parent == parent
    ensures Displaced(ls, uid, parent, after, f) <==> Behind(ls, parent, after, f)
  {
    NotAfterItself(ls, uid);
    FindDelete(ls, uid, f);
    if Behind(ls, parent, Some(uid), f) {
      NotBehindEachOther(ls, uid, f);
    }
  }

  lemma {:induction false} RelinkingRepeatsIff(ls: seq<Layer>, uid: Name, parent: Option<Name>, after: Option<Name>)
    requires Chained(ls) && CanMove(ls, uid, parent, after)
    ensures var layer := Find(ls, uid).value;
      var left := Relinking(ls, layer, parent, after);
      && Find(left, uid).Some?
      && (RelinkingRepeats(ls, layer, parent, after) ==>
            MoveLayer(left, uid, parent, after) == MoveLayer(ls, uid, parent, after))
      && (!RelinkingRepeats(ls, layer, parent, after) ==>
            && MoveLayer(left, uid, parent, after) != MoveLayer(ls, uid, parent, after)
            && !Chained(MoveLayer(left, uid, parent, after)))
  {
    var layer := Find(ls, uid).value;
    var left := Relinking(ls, layer, parent, after);
    NotAfterItself(ls, uid);
    DisplacedIff(ls, uid, parent, after);
    RelinkingUids(ls, layer, parent, after);
    FindRepeatRelinking(ls, uid, parent, after, uid);
    if layer.after.Some? && layer.parent == parent {
      OnePlaceUp(ls, uid, parent, after, layer.after.value);
    }
    if RelinkingRepeats(ls, layer, parent, after) {
      forall u
        ensures Find(MoveLayer(left, uid, parent, after), u) == Find(MoveLayer(ls, uid, parent, after), u)
      {
        FindRepeatRelinking(ls, uid, parent, after, u);
        if Displaced(ls, uid, parent, after, u)
           && layer.after.Some? && Displaced(ls, uid, parent, after, layer.after.value) {
          OneDisplaced(ls, uid, parent, after, u, layer.after.value);
        }
      }
      SameMove(ls, left, uid, parent, after);
    } else {
      var t: Name :| Displaced(ls, uid, parent, after, t);
      LosesTo(ls, left, uid, parent, after, t, layer.after) by {
        forall u
          ensures Find(MoveLayer(left, uid, parent, after), u) ==
                  if u == t then Some(Find(DeleteLayer(ls, uid), u).value.(after := layer.after))
                  else Find(MoveLayer(ls, uid, parent, after), u)
        {
          FindRepeatRelinking(ls, uid, parent, after, u);
          if Displaced(ls, uid, parent, after, u) {
            OneDisplaced(ls, uid, parent, after, u, t);
          }
        }
      }
    }
  }

  /** A move repeated with one displaced layer not linked behind the moved one. */
  lemma {:induction false} LosesTo(ls: seq<Layer>, left: seq<Layer>, uid: Name, parent: Option<Name>,
                                   after: Option<Name>,
                                   t: Name, to: Option<Name>)
    requires Chained(ls) && CanMove(ls, uid, parent, after) && Find(left, uid).Some?
    requires Displaced(ls, uid, parent, after, t) && to != Some(uid)
    requires forall u :: Find(MoveLayer(left, uid, parent, after), u) ==
                         if u == t then Some(Find(DeleteLayer(ls, uid), u).value.(after := to))
                         else Find(MoveLayer(ls, uid, parent, after), u)
    ensures MoveLayer(left, uid, parent, after) != MoveLayer(ls, uid, parent, after)
    ensures !Chained(MoveLayer(left, uid, parent, after))
  {
    MoveRefines(ls, uid, parent, after);
    FindMoved(ls, uid, parent, after, t);
    FindRelinking(ls, uid, parent, after, t);
    LostLink(MoveLayer(ls, uid, parent, after), MoveLayer(left, uid, parent, after), parent, t, to);
  }

  lemma {:induction false} ReparentedRepeatsIff(ls: seq<Layer>, uid: Name, parent: Option<Name>, after: Option<Name>)
    requires Chained(ls) && CanMove(ls, uid, parent, after)
    ensures var left := Reparented(ls, Find(ls, uid).value, parent, after);
      var repeats := GoesLast(ls, uid, parent, after) || after.None?;
      && Find(left, uid).Some?
      && (repeats ==> MoveLayer(left, uid, parent, after) == MoveLayer(ls, uid, parent, after))
      && (!repeats ==>
            && MoveLayer(left, uid, parent, after) != MoveLayer(ls, uid, parent, after)
            && !Chained(MoveLayer(left, uid, parent, after)))
  {
    var layer := Find(ls, uid).value;
    var left := Reparented(ls, layer, parent, after);
    NotAfterItself(ls, uid);
    DisplacedIff(ls, uid, parent, after);
    RelinkingUids(ls, layer, parent, after);
    FindRepeatReparented(ls, uid, parent, after, uid);
    if GoesLast(ls, uid, parent, after) || after.None? {
      forall u
        ensures Find(MoveLayer(left, uid, parent, after), u) == Find(MoveLayer(ls, uid, parent, after), u)
      {
        FindRepeatReparented(ls, uid, parent, after, u);
      }
      SameMove(ls, left, uid, parent, after);
    } else {
      var t: Name :| Displaced(ls, uid, parent, after, t);
      LosesTo(ls, left, uid, parent, after, t, None) by {
        forall u
          ensures Find(MoveLayer(left, uid, parent, after), u) ==
                  if u == t then Some(Find(DeleteLayer(ls, uid), u).value.(after := None))
                  else Find(MoveLayer(ls, uid, parent, after), u)
        {
          FindRepeatReparented(ls, uid, parent, after, u);
          if Displaced(ls, uid, parent, after, u) {
            OneDisplaced(ls, uid, parent, after, u, t);
          }
        }
      }
    }
  }

  /** Nothing changed yet, or only the old follower relinked: the repeat completes. */
  lemma {:induction false} UnlinkedRepeats(ls: seq<Layer>, uid: Name, parent: Option<Name>, after: Option<Name>)
    requires DistinctUids(ls) && Find(ls, uid).Some?
    ensures var left := Unlinked(ls, Find(ls, uid).value);
      Find(left, uid).Some? && MoveLayer(left, uid, parent, after) == MoveLayer(ls, uid, parent, after)
  {
    var layer := Find(ls, uid).value;
    FixupTwice(ls, layer.after, layer.parent, Some(uid));
    FindFixup(ls, layer.after, layer.parent, Some(uid), uid);
  }

  /** Nothing stands behind the new place; or no parent is stored before a predecessor, and the
      layer changes its list, stays where it was or goes one place up. */
  ghost predicate MoveRepeats(ls: seq<Layer>, layer: Layer, parent: Option<Name>, after: Option<Name>) {
    || GoesLast(ls, layer.uid, parent, after)
    || ((StoresParent(layer, parent) ==> after.None?) && RelinkingRepeats(ls, layer, parent, after))
  }

  /** Repeated, a permitted move that failed ends where it would have, wherever it failed, exactly
      under the condition above. */
  lemma {:induction false} MoveRepeatsIff(ls: seq<Layer>, uid: Name, parent: Option<Name>, after: Option<Name>)
    requires Chained(ls) && CanMove(ls, uid, parent, after)
    ensures var layer := Find(ls, uid).value;
      (forall left :: LeftByMove(ls, layer, parent, after, left) ==>
         Find(left, uid).Some? && MoveLayer(left, uid, parent, after) == MoveLayer(ls, uid, parent, after))
      <==> MoveRepeats(ls, layer, parent, after)
  {
    var layer := Find(ls, uid).value;
    NotAfterItself(ls, uid);
    UnlinkedRepeats(ls, uid, parent, after);
    RelinkingRepeatsIff(ls, uid, parent, after);
    ReparentedRepeatsIff(ls, uid, parent, after);
    assert LeftByMove(ls, layer, parent, after, Relinking(ls, layer, parent, after));
    if StoresParent(layer, parent) {
      assert LeftByMove(ls, layer, parent, after, Reparented(ls, layer, parent, after));
    }
  }

  /** A repeated move that does not end where it would have leaves a broken chain. */
  lemma {:induction false} RepeatedMoveIff(ls: seq<Layer>, uid: Name, parent: Option<Name>,
                                           after: Option<Name>, left: seq<Layer>)
    requires Chained(ls) && CanMove(ls, uid, parent, after) && LeftByMove(ls, Find(ls, uid).value, parent, after, left)
    ensures Find(left, uid).Some?
    ensures Chained(MoveLayer(left, uid, parent, after)) <==>
            MoveLayer(left, uid, parent, after) == MoveLayer(ls, uid, parent, after)
  {
    MoveRefines(ls, uid, parent, after);
    UnlinkedRepeats(ls, uid, parent, after);
    RelinkingRepeatsIff(ls, uid, parent, after);
    ReparentedRepeatsIff(ls, uid, parent, after);
  }

  lemma {:induction false} FixupThree(a: Layer, b: Layer, c: Layer, uid: Option<Name>, parent: Option<Name>,
                                      after: Option<Name>)
    requires a.uid != b.uid && b.uid != c.uid && a.uid != c.uid
    ensures Fixup([a, b, c], uid, parent, after) ==
            [if Follows(a, uid, parent, after) then a.(after := uid) else a,
             if Follows(b, uid, parent, after) then b.(after := uid) else b,
             if Follows(c, uid, parent, after) then c.(after := uid) else c]
  {
    FixupEach([a, b, c], uid, parent, after, 0);
    FixupEach([a, b, c], uid, parent, after, 1);
    FixupEach([a, b, c], uid, parent, after, 2);
  }

  lemma {:induction false} LeftHalfway(x: Name, y: Name, z: Name)
    requires x != y && y != z && x != z
    ensures Reparented([Top(x, None), Top(y, Some(x)), Top(z, Some(y))], Top(x, None), None, Some(y)) ==
            [Top(x, None), Top(y, None), Top(z, Some(x))]
  {
    var left := [Top(x, None), Top(y, None), Top(z, Some(x))];
    FixupThree(Top(x, None), Top(y, Some(x)), Top(z, Some(y)), None, None, Some(x));
    FixupThree(Top(x, None), Top(y, None), Top(z, Some(y)), Some(x), None, Some(y));
    assert left == [left[0]] + left[1..];
  }

  lemma {:induction false} MovedAgain(x: Name, y: Name, z: Name)
    requires x != y && y != z && x != z
    ensures var left := [Top(x, None), Top(y, None), Top(z, Some(x))];
      && Find(left, x) == Some(Top(x, None))
      && MoveLayer(left, x, None, Some(y)) == [Top(x, Some(y)), Top(y, None), Top(z, None)]
  {
    var linked := [Top(x, None), Top(y, None), Top(z, None)];
    FixupThree(Top(x, None), Top(y, None), Top(z, Some(x)), None, None, Some(x));
    FixupThree(Top(x, None), Top(y, None), Top(z, None), Some(x), None, Some(y));
    assert linked == [linked[0]] + linked[1..];
  }

  lemma {:induction false} NotLast(ls: seq<Layer>, x: Name, y: Name, z: Name)
    requires x != y && y != z && x != z
    requires Holds(ls, [x, y, z])
    ensures CanMove(ls, x, None, Some(y)) && !GoesLast(ls, x, None, Some(y))
  {
    ChainIsLinked(ls, None);
    assert y in [x, y, z] && x in [x, y, z];
    RemoveAt([x, y, z], x, 0);
  }

  /** `x` moved behind `y` in `x, y, z`, its predecessor not saved, and the move repeated: `y`
      and `z` both come first. */
  lemma {:induction false} RepeatCanBreak(x: Name, y: Name, z: Name)
    requires x != y && y != z && x != z
    ensures var ls := [Top(x, None), Top(y, Some(x)), Top(z, Some(y))];
      var left := [Top(x, None), Top(y, None), Top(z, Some(x))];
      && Holds(ls, [x, y, z]) && CanMove(ls, x, None, Some(y)) && Find(ls, x) == Some(Top(x, None))
      && LeftByMove(ls, Top(x, None), None, Some(y), left) && Find(left, x).Some?
      && MoveLayer(left, x, None, Some(y)) == [Top(x, Some(y)), Top(y, None), Top(z, None)]
      && !Chained(MoveLayer(left, x, None, Some(y)))
  {
    var ls := [Top(x, None), Top(y, Some(x)), Top(z, Some(y))];
    Row3(x, y, z);
    NotLast(ls, x, y, z);
    LeftHalfway(x, y, z);
    MovedAgain(x, y, z);
    ReparentedRepeatsIff(ls, x, None, Some(y));
  }
}
