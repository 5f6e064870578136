/**
 Which operations on layers cannot break a chain wherever an append fails: those that nothing
 stands behind, which a caller sees from the order shown before.
 */
module LayerSafety {
  import opened Common
  import opened LayerOrder
  import opened LayerChains
  import LayerCycles
  import opened LayerFailures
  import opened Missions

  ghost function LastOf(xs: seq<Name>): Option<Name> {
    if xs == [] then None else Some(xs[|xs| - 1])
  }

  /** `u` is the layer under `p` that comes right after `after`. */
  ghost predicate Behind(ls: seq<Layer>, p: Option<Name>, after: Option<Name>, u: Name) {
    Under(ls, p, u) && Find(ls, u).value.after == after
  }

  /** In a chain something stands behind every place but the last. */
  lemma {:induction false} BehindIffNotLast(ls: seq<Layer>, p: Option<Name>, after: Option<Name>)
    requires Chained(ls) && (after.Some? ==> Under(ls, p, after.value))
    ensures (exists u :: Behind(ls, p, after, u)) <==> after != LastOf(Order(ls, p))
  {
    var xs := Order(ls, p);
    ChainIsLinked(ls, p);
    if u :| Behind(ls, p, after, u) {
      var i := PlaceOf(ls, p, xs, u);
    }
    if after != LastOf(xs) {
      var k := 0;
      if after.Some? {
        var i := PlaceOf(ls, p, xs, after.value);
        k := i + 1;
      }
      assert LinkAt(ls, xs, k) && xs[k] in xs;
      assert Behind(ls, p, after, xs[k]);
    }
  }

  lemma {:induction false} TargetIsBehind(ls: seq<Layer>, uid: Option<Name>, parent: Option<Name>, after: Option<Name>)
    requires DistinctUids(ls)
    ensures Targets(ls, uid, parent, after) != [] <==> exists u :: uid != Some(u) && Behind(ls, parent, after, u)
  {
    var ts := Targets(ls, uid, parent, after);
    if ts != [] {
      TargetsSpec(ls, uid, parent, after, ts[0]);
      assert Behind(ls, parent, after, ts[0]);
    }
    if u :| uid != Some(u) && Behind(ls, parent, after, u) {
      TargetsSpec(ls, uid, parent, after, u);
    }
  }

  /** Relinking followers alone keeps a chain exactly if there are none. */
  lemma {:induction false} FixupSafeIff(ls: seq<Layer>, uid: Option<Name>, parent: Option<Name>, after: Option<Name>)
    requires Chained(ls) && uid != after
    ensures Chained(Fixup(ls, uid, parent, after)) <==> Targets(ls, uid, parent, after) == []
  {
    var ts := Targets(ls, uid, parent, after);
    FixupKeepsChainIff(ls, uid, parent, after);
    if ts != [] {
      TargetsSpec(ls, uid, parent, after, ts[0]);
      FindFixup(ls, uid, parent, after, ts[0]);
    }
  }

  // ----- Adding -----

  /** Every way an add can fail leaves a chain exactly if nothing but the layer itself stands
      right behind its place, or it is put behind itself, which relinks nothing. */
  lemma {:induction false} AddSafeIff(ls: seq<Layer>, layer: Layer)
    requires Chained(ls)
    ensures (forall left :: LeftByAdd(ls, layer, left) ==> Chained(left)) <==>
      || layer.after == Some(layer.uid)
      || !exists u :: u != layer.uid && Behind(ls, layer.parent, layer.after, u)
  {
    var fixed := Fixup(ls, Some(layer.uid), layer.parent, layer.after);
    assert LeftByAdd(ls, layer, fixed);
    if layer.after == Some(layer.uid) {
      FixupSame(ls, Some(layer.uid), layer.parent, layer.after);
    } else {
      FixupSafeIff(ls, Some(layer.uid), layer.parent, layer.after);
      TargetIsBehind(ls, Some(layer.uid), layer.parent, layer.after);
    }
  }

  /** For a permitted add: exactly if it goes last. */
  ghost predicate AddSafe(ls: seq<Layer>, layer: Layer) {
    layer.after == LastOf(Order(ls, layer.parent))
  }

  lemma {:induction false} PermittedAddSafeIff(ls: seq<Layer>, layer: Layer)
    requires Chained(ls) && CanAdd(ls, layer)
    ensures (forall left :: LeftByAdd(ls, layer, left) ==> Chained(left)) <==> AddSafe(ls, layer)
  {
    AddSafeIff(ls, layer);
    BehindIffNotLast(ls, layer.parent, layer.after);
    if u :| Behind(ls, layer.parent, layer.after, u) {
      assert Some(layer.uid) != Some(u);
    }
  }

  // ----- Deleting -----

  /** Exactly if the layer is the last of its list. */
  ghost predicate DeleteSafe(ls: seq<Layer>, layer: Layer) {
    Some(layer.uid) == LastOf(Order(ls, layer.parent))
  }

  lemma {:induction false} UnlinkSafeIff(ls: seq<Layer>, uid: Name)
    requires Chained(ls) && Find(ls, uid).Some?
    ensures var layer := Find(ls, uid).value; Chained(Unlinked(ls, layer)) <==> DeleteSafe(ls, layer)
    ensures var layer := Find(ls, uid).value; DeleteSafe(ls, layer) <==> Unlinked(ls, layer) == ls
  {
    var layer := Find(ls, uid).value;
    NotAfterItself(ls, uid);
    assert Under(ls, layer.parent, uid);
    FixupSafeIff(ls, layer.after, layer.parent, Some(uid));
    FixupKeepsChainIff(ls, layer.after, layer.parent, Some(uid));
    TargetIsBehind(ls, layer.after, layer.parent, Some(uid));
    BehindIffNotLast(ls, layer.parent, Some(uid));
    if u :| Behind(ls, layer.parent, Some(uid), u) {
      NotBehindEachOther(ls, uid, u);
    }
  }

  /** In a chain two layers do not come after each other. */
  lemma {:induction false} NotBehindEachOther(ls: seq<Layer>, uid: Name, u: Name)
    requires Chained(ls) && Find(ls, uid).Some? && Behind(ls, Find(ls, uid).value.parent, Some(uid), u)
    ensures Find(ls, uid).value.after != Some(u)
  {
    var p := Find(ls, uid).value.parent;
    ChainIsLinked(ls, p);
    assert Under(ls, p, uid);
    var i := PlaceOf(ls, p, Order(ls, p), uid);
    var j := PlaceOf(ls, p, Order(ls, p), u);
  }

  /** Every way a delete can fail leaves a chain exactly if nothing follows the layer. */
  lemma {:induction false} DeleteSafeIff(ls: seq<Layer>, uid: Name)
    requires Chained(ls) && Find(ls, uid).Some?
    ensures var layer := Find(ls, uid).value;
      (forall left :: LeftByDelete(ls, layer, left) ==> Chained(left)) <==> DeleteSafe(ls, layer)
  {
    var layer := Find(ls, uid).value;
    UnlinkSafeIff(ls, uid);
    assert LeftByDelete(ls, layer, Unlinked(ls, layer));
  }

  // ----- Moving -----

  /** The new place is the last of the new list, the layer itself not counted. */
  ghost predicate GoesLast(ls: seq<Layer>, uid: Name, parent: Option<Name>, after: Option<Name>) {
    after == LastOf(Remove(Order(ls, parent), uid))
  }

  /** A move stores the parent if it changes, and also at the top. */
  predicate StoresParent(layer: Layer, parent: Option<Name>) {
    layer.parent != parent || layer.parent.None?
  }

  /** Nothing follows the layer, nothing stands behind its new place, and the parent need not be
      stored before the predecessor unless there is none. */
  ghost predicate MoveSafe(ls: seq<Layer>, layer: Layer, parent: Option<Name>, after: Option<Name>) {
    && DeleteSafe(ls, layer) && GoesLast(ls, layer.uid, parent, after)
    && (StoresParent(layer, parent) ==> after.None?)
  }

  /** `u` stands behind the place a layer is moved to, the layer itself not counted. */
  ghost predicate Displaced(ls: seq<Layer>, uid: Name, parent: Option<Name>, after: Option<Name>, u: Name) {
    u != uid && Behind(DeleteLayer(ls, uid), parent, after, u)
  }

  lemma {:induction false} DisplacedIff(ls: seq<Layer>, uid: Name, parent: Option<Name>, after: Option<Name>)
    requires Chained(ls) && CanMove(ls, uid, parent, after)
    ensures (exists u :: Displaced(ls, uid, parent, after, u)) <==> !GoesLast(ls, uid, parent, after)
  {
    var gone := DeleteLayer(ls, uid);
    DeleteRefines(ls, uid);
    FindDelete(ls, uid, uid);
    if after.Some? {
      FindDelete(ls, uid, after.value);
    }
    BehindIffNotLast(gone, parent, after);
    if u :| Behind(gone, parent, after, u) {
      assert Displaced(ls, uid, parent, after, u);
    }
  }

  /** With nothing following the layer, linking it in keeps the chain exactly if it goes last. */
  lemma {:induction false} RelinkSafeIff(ls: seq<Layer>, uid: Name, parent: Option<Name>, after: Option<Name>)
    requires Chained(ls) && CanMove(ls, uid, parent, after) && DeleteSafe(ls, Find(ls, uid).value)
    ensures Chained(Relinking(ls, Find(ls, uid).value, parent, after)) <==> GoesLast(ls, uid, parent, after)
  {
    var layer := Find(ls, uid).value;
    NotAfterItself(ls, uid);
    UnlinkSafeIff(ls, uid);
    FixupSafeIff(ls, Some(uid), parent, after);
    TargetIsBehind(ls, Some(uid), parent, after);
    DisplacedIff(ls, uid, parent, after);
    forall u
      ensures Displaced(ls, uid, parent, after, u) <==> Some(uid) != Some(u) && Behind(ls, parent, after, u)
    {
      UnlinkedIsDeleted(ls, uid, u);
    }
  }

  lemma {:induction false} ReparentSafeIff(ls: seq<Layer>, uid: Name, parent: Option<Name>, after: Option<Name>)
    requires Chained(ls) && CanMove(ls, uid, parent, after) && StoresParent(Find(ls, uid).value, parent)
    ensures Chained(Reparented(ls, Find(ls, uid).value, parent, after)) <==> after.None?
  {
    if after.Some? {
      TwoHeads(ls, uid, parent, after);
    } else {
      AtTheHead(ls, uid, parent);
      MoveRefines(ls, uid, parent, after);
    }
  }

  /** Every way a permitted move can fail leaves a chain exactly under the condition above. */
  lemma {:induction false} MoveSafeIff(ls: seq<Layer>, uid: Name, parent: Option<Name>, after: Option<Name>)
    requires Chained(ls) && CanMove(ls, uid, parent, after)
    ensures var layer := Find(ls, uid).value;
      (forall left :: LeftByMove(ls, layer, parent, after, left) ==> Chained(left)) <==> MoveSafe(ls, layer, parent, after)
  {
    var layer := Find(ls, uid).value;
    NotAfterItself(ls, uid);
    UnlinkSafeIff(ls, uid);
    assert LeftByMove(ls, layer, parent, after, Unlinked(ls, layer));
    assert LeftByMove(ls, layer, parent, after, Relinking(ls, layer, parent, after));
    if StoresParent(layer, parent) {
      ReparentSafeIff(ls, uid, parent, after);
      assert LeftByMove(ls, layer, parent, after, Reparented(ls, layer, parent, after));
    }
    if DeleteSafe(ls, layer) {
      RelinkSafeIff(ls, uid, parent, after);
    }
  }

  // ----- Operations that are not safe -----

  /** A layer at the top. */
  function Top(u: Name, after: Option<Name>): Layer {
    Layer(u, None, Group, None, after)
  }

  /** One list at the top: each layer after the one before it. */
  ghost function Row(xs: seq<Name>): seq<Layer> {
    if xs == [] then [] else
      var n := |xs| - 1;
      Row(xs[..n]) + [Top(xs[n], LastOf(xs[..n]))]
  }

  /** The adds that make it. */
  ghost function RowRun(xs: seq<Name>): seq<LayerOp> {
    if xs == [] then [] else
      var n := |xs| - 1;
      RowRun(xs[..n]) + [Add(Top(xs[n], LastOf(xs[..n])))]
  }

  /** A layer added last relinks nothing. */
  lemma {:induction false} AddedLast(ls: seq<Layer>, layer: Layer)
    requires Chained(ls) && CanAdd(ls, layer) && AddSafe(ls, layer)
    ensures AddLayer(ls, layer) == ls + [layer]
  {
    PermittedAddSafeIff(ls, layer);
    var fixed := Fixup(ls, Some(layer.uid), layer.parent, layer.after);
    assert LeftByAdd(ls, layer, fixed);
    FailedAddIff(ls, layer, fixed);
  }

  lemma {:induction false} InsertLast(xs: seq<Name>, uid: Name)
    requires Distinct(xs)
    ensures InsertAfter(xs, LastOf(xs), uid) == xs + [uid]
  {
    if xs != [] {
      var k := InsertAt(xs, LastOf(xs), uid);
    }
  }

  /** `ls` holds the list `xs` at the top and nothing else. */
  ghost predicate Holds(ls: seq<Layer>, xs: seq<Name>) {
    Chained(ls) && Order(ls, None) == xs && forall u :: Find(ls, u).Some? <==> u in xs
  }

  lemma {:induction false} RowNext(ls: seq<Layer>, xs: seq<Name>, x: Name)
    requires Distinct(xs) && x !in xs && Holds(ls, xs)
    ensures var layer := Top(x, LastOf(xs));
      CanAdd(ls, layer) && AddLayer(ls, layer) == ls + [layer] && Holds(ls + [layer], xs + [x])
  {
    var layer := Top(x, LastOf(xs));
    ChainIsLinked(ls, None);
    assert xs != [] ==> xs[|xs| - 1] in xs;
    assert CanAdd(ls, layer);
    AddedLast(ls, layer);
    AddRefines(ls, layer);
    InsertLast(xs, x);
    forall u
      ensures Find(ls + [layer], u).Some? <==> u in xs + [x]
    {
      FindAppend(ls, layer, u);
    }
  }

  lemma {:induction false} RowHolds(xs: seq<Name>)
    requires Distinct(xs)
    ensures Holds(Row(xs), xs)
  {
    if xs == [] {
      EmptyHolds();
    } else {
      var front, x := xs[..|xs| - 1], xs[|xs| - 1];
      RowHolds(front);
      RowNext(Row(front), front, x);
      assert xs == front + [x];
    }
  }

  lemma {:induction false} EmptyHolds()
    ensures Holds([], [])
  {
    RunsRefine([]);
  }

  /** Every such list is reached by permitted adds. */
  lemma {:induction false} RowReached(xs: seq<Name>)
    requires Distinct(xs)
    ensures PermittedRun(RowRun(xs)) && LayersAfter(RowRun(xs)) == Row(xs)
  {
    if xs != [] {
      var front, x := xs[..|xs| - 1], xs[|xs| - 1];
      RowReached(front);
      RowHolds(front);
      RowNext(Row(front), front, x);
      LayerCycles.RunAppend(RowRun(front), Add(Top(x, LastOf(front))));
    }
  }

  lemma {:induction false} FixupEach(ls: seq<Layer>, uid: Option<Name>, parent: Option<Name>, after: Option<Name>, i: nat)
    requires DistinctUids(ls) && i < |ls|
    ensures |Fixup(ls, uid, parent, after)| == |ls|
    ensures Fixup(ls, uid, parent, after)[i] ==
            if Follows(ls[i], uid, parent, after) then ls[i].(after := uid) else ls[i]
  {
    var ms := Fixup(ls, uid, parent, after);
    UidsSetAfters(ls, Targets(ls, uid, parent, after), uid);
    FixupDistinct(ls, uid, parent, after);
    assert |ms| == |Uids(ms)| && Uids(ms)[i] == Uids(ls)[i];
    assert ms[i] in ms && ls[i] in ls;
    FindUnique(ls, ls[i]);
    FindUnique(ms, ms[i]);
    FindFixup(ls, uid, parent, after, ls[i].uid);
  }

  lemma {:induction false} Row1(a: Name)
    ensures Row([a]) == [Top(a, None)] && Holds([Top(a, None)], [a])
  {
    RowHolds([a]);
    assert [a][..0] == [];
  }

  lemma {:induction false} Row2(a: Name, b: Name)
    requires a != b
    ensures Row([a, b]) == [Top(a, None), Top(b, Some(a))] && Holds([Top(a, None), Top(b, Some(a))], [a, b])
  {
    RowHolds([a, b]);
    Row1(a);
    assert [a, b][..1] == [a];
  }

  lemma {:induction false} Row3(a: Name, b: Name, c: Name)
    requires a != b && b != c && a != c
    ensures var ls := [Top(a, None), Top(b, Some(a)), Top(c, Some(b))]; Row([a, b, c]) == ls && Holds(ls, [a, b, c])
  {
    RowHolds([a, b, c]);
    Row2(a, b);
    assert [a, b, c][..2] == [a, b];
  }

  lemma {:induction false} FixupTwo(a: Layer, b: Layer, uid: Option<Name>, parent: Option<Name>, after: Option<Name>)
    requires a.uid != b.uid
    ensures Fixup([a, b], uid, parent, after) ==
            [if Follows(a, uid, parent, after) then a.(after := uid) else a,
             if Follows(b, uid, parent, after) then b.(after := uid) else b]
  {
    FixupEach([a, b], uid, parent, after, 0);
    FixupEach([a, b], uid, parent, after, 1);
  }

  /** Adding `a` before `b`, the layer itself not saved: `b` comes after a layer that is not there. */
  lemma {:induction false} AddCanBreak(a: Name, b: Name)
    requires a != b
    ensures var ls, layer, left := [Top(b, None)], Top(a, None), [Top(b, Some(a))];
      Holds(ls, [b]) && CanAdd(ls, layer) && LeftByAdd(ls, layer, left) && !Chained(left)
  {
    var ls, left := [Top(b, None)], [Top(b, Some(a))];
    Row1(b);
    FixupEach(ls, Some(a), None, None, 0);
    assert left == Fixup(ls, Some(a), None, None);
    FailedAddIff(ls, Top(a, None), left);
    assert left[0] != ls[0];
  }

  /** Deleting `a` before `b`, the deletion itself not saved: both come first. */
  lemma {:induction false} DeleteCanBreak(a: Name, b: Name)
    requires a != b
    ensures var ls, left := [Top(a, None), Top(b, Some(a))], [Top(a, None), Top(b, None)];
      Holds(ls, [a, b]) && Find(ls, a) == Some(Top(a, None)) && LeftByDelete(ls, Top(a, None), left) && !Chained(left)
  {
    var ls, left := [Top(a, None), Top(b, Some(a))], [Top(a, None), Top(b, None)];
    Row2(a, b);
    FixupTwo(Top(a, None), Top(b, Some(a)), None, None, Some(a));
    FailedDeleteIff(ls, Top(a, None), left);
    assert left[1] != ls[1];
  }

  /** Moving `b` before `a`, its own place not saved: each comes after the other. */
  lemma {:induction false} MoveCanBreak(a: Name, b: Name)
    requires a != b
    ensures var ls, left := [Top(a, None), Top(b, Some(a))], [Top(a, Some(b)), Top(b, Some(a))];
      && Holds(ls, [a, b]) && CanMove(ls, b, None, None) && Find(ls, b) == Some(Top(b, Some(a)))
      && LeftByMove(ls, Top(b, Some(a)), None, None, left) && !Chained(left)
  {
    var ls, left := [Top(a, None), Top(b, Some(a))], [Top(a, Some(b)), Top(b, Some(a))];
    Row2(a, b);
    FindAppend([Top(a, None)], Top(b, Some(a)), b);
    FixupTwo(Top(a, None), Top(b, Some(a)), Some(a), None, Some(b));
    FixupTwo(Top(a, None), Top(b, Some(a)), Some(b), None, None);
    RelinkingIff(ls, b, None, None);
    assert left[0] != ls[0];
  }
}
