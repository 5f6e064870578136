/**
 Moves can make a layer its own ancestor. The top-level listing is not affected; the listing
 from one layer down exists exactly if that layer is not on a cycle of parents.
 */
module LayerCycles {
  import opened Common
  import opened LayerOrder
  import opened LayerChains
  import opened LayerTrees

  /** The trees of the layers `level`. */
  ghost predicate Shows(all: seq<Layer>, level: seq<Layer>, trees: seq<Tree>) {
    Roots(trees) == level && forall k :: 0 <= k < |trees| ==> InOrder(all, Some(trees[k].layer.uid), trees[k].children)
  }

  lemma {:induction false} ShowsNext(all: seq<Layer>, level: seq<Layer>, i: nat, trees: seq<Tree>, children: seq<Tree>)
    requires i < |level| && Shows(all, level[..i], trees) && InOrder(all, Some(level[i].uid), children)
    ensures Shows(all, level[..i + 1], trees + [Tree(level[i], children)])
  {
    var more := trees + [Tree(level[i], children)];
    assert Roots(more) == level[..i + 1];
    forall k | 0 <= k < |more|
      ensures InOrder(all, Some(more[k].layer.uid), more[k].children)
    {
      if k < |trees| {
        assert more[k] == trees[k];
      }
    }
  }

  /** The trees below the end of `path` exist. */
  lemma {:induction false} TreesExist(all: seq<Layer>, base: Option<Name>, path: seq<Layer>) returns (trees: seq<Tree>)
    requires Rooted(all, base) && IsPath(all, base, path)
    ensures InOrder(all, ParentOf(base, path), trees)
    decreases LayerSet(all) - LayerSet(path)
  {
    var level := Ordered(Siblings(all, ParentOf(base, path)));
    LevelStart(all, base, path, level);
    trees := [];
    for i := 0 to |level|
      invariant Shows(all, level[..i], trees)
    {
      Descend(all, base, path, level, i);
      var children := TreesExist(all, base, path + [level[i]]);
      ShowsNext(all, level, i, trees, children);
      trees := trees + [Tree(level[i], children)];
    }
    assert level[..|level|] == level;
  }

  /** A layer named as parent is shown at the level below it. */
  lemma {:induction false} ShownBelow(all: seq<Layer>, parent: Option<Name>, trees: seq<Tree>, l: Layer) returns (i: nat)
    requires DistinctUids(all) && InOrder(all, parent, trees) && l in all && l.parent == parent
    ensures i < |trees| && trees[i].layer == l
  {
    var sibs := Siblings(all, parent);
    SiblingsSpec(all, parent);
    OrderedUnique(sibs, sibs, []);
    SameElements(Roots(trees), sibs, l);
    i :| 0 <= i < |Roots(trees)| && Roots(trees)[i] == l;
  }

  /** The same cycle, seen from the next layer on it. */
  lemma {:induction false} Turned(all: seq<Layer>, uid: Name, w: seq<Layer>)
    requires w != [] && IsPath(all, Some(uid), w) && w[|w| - 1].uid == uid
    ensures IsPath(all, Some(w[0].uid), w[1..] + [w[0]])
  {
    var v := w[1..] + [w[0]];
    forall i | 0 <= i < |v|
      ensures OnPath(all, Some(w[0].uid), v, i)
    {
      if i + 1 < |w| {
        assert OnPath(all, Some(uid), w, i + 1);
      } else {
        assert OnPath(all, Some(uid), w, 0);
      }
    }
  }

  /** Trees that follow a cycle would have to be infinite. */
  lemma {:induction false} NoTrees(all: seq<Layer>, uid: Name, w: seq<Layer>, trees: seq<Tree>)
    requires DistinctUids(all) && w != [] && IsPath(all, Some(uid), w) && w[|w| - 1].uid == uid
    ensures !InOrder(all, Some(uid), trees)
    decreases trees
  {
    if InOrder(all, Some(uid), trees) {
      assert OnPath(all, Some(uid), w, 0);
      var i := ShownBelow(all, Some(uid), trees, w[0]);
      Turned(all, uid, w);
      NoTrees(all, w[0].uid, w[1..] + [w[0]], trees[i].children);
    }
  }

  /** The listing from one layer down exists exactly if the layer is not its own ancestor. */
  lemma {:induction false} ListingExistsIff(all: seq<Layer>, uid: Name)
    requires DistinctUids(all)
    ensures (exists trees :: InOrder(all, Some(uid), trees)) <==> !OnCycle(all, uid)
  {
    if OnCycle(all, uid) {
      var l: Layer :| l.uid == uid && Below(all, Some(uid), l);
      var w :| w != [] && IsPath(all, Some(uid), w) && w[|w| - 1] == l;
      forall trees
        ensures !InOrder(all, Some(uid), trees)
      {
        NoTrees(all, uid, w, trees);
      }
    } else {
      var trees := TreesExist(all, Some(uid), []);
      assert InOrder(all, Some(uid), trees);
    }
  }

  /** A run of permitted operations after which a layer is its own ancestor: it is moved under
      its own child. */
  ghost function CyclicRun(a: Name, b: Name): seq<LayerOp> {
    [Add(Layer(a, None, Group, None, None)), Add(Layer(b, None, Group, Some(a), None)), Move(a, Some(b), None)]
  }

  lemma {:induction false} CycleReachable(a: Name, b: Name)
    requires a != b
    ensures PermittedRun(CyclicRun(a, b)) && OnCycle(LayersAfter(CyclicRun(a, b)), a)
    ensures forall trees :: !InOrder(LayersAfter(CyclicRun(a, b)), Some(a), trees)
  {
    var run, child := CyclicRun(a, b), Layer(b, None, Group, Some(a), None);
    var moved := Layer(a, None, Group, Some(b), None);
    RunState(a, b);
    assert OnPath([moved, child], Some(a), [child, moved], 0) && OnPath([moved, child], Some(a), [child, moved], 1);
    assert Below([moved, child], Some(a), moved);
    ListingExistsIff([moved, child], a);
  }

  lemma {:induction false} RunState(a: Name, b: Name)
    requires a != b
    ensures PermittedRun(CyclicRun(a, b))
    ensures LayersAfter(CyclicRun(a, b)) == [Layer(a, None, Group, Some(b), None), Layer(b, None, Group, Some(a), None)]
  {
    var run := CyclicRun(a, b);
    var top, child := Layer(a, None, Group, None, None), Layer(b, None, Group, Some(a), None);
    OneLayer(top);
    RunAppend([Add(top)], Add(child));
    TwoLayers(top, child);
    RunAppend([Add(top), Add(child)], Move(a, Some(b), None));
    MovedUnder(top, child);
    assert [Add(top)] + [Add(child)] == [Add(top), Add(child)];
    assert [Add(top), Add(child)] + [Move(a, Some(b), None)] == run;
  }

  lemma {:induction false} RunAppend(ops: seq<LayerOp>, op: LayerOp)
    ensures LayersAfter(ops + [op]) == Do(LayersAfter(ops), op)
    ensures PermittedRun(ops + [op]) <==> PermittedRun(ops) && Permitted(LayersAfter(ops), op)
  {
    assert (ops + [op])[..|ops|] == ops;
  }

  lemma {:induction false} OneLayer(top: Layer)
    requires top.after.None?
    ensures LayersAfter([Add(top)]) == [top] && PermittedRun([Add(top)])
  {
    RunAppend([], Add(top));
    assert [] + [Add(top)] == [Add(top)];
    assert AddLayer([], top) == [] + [top];
  }

  lemma {:induction false} TwoLayers(top: Layer, child: Layer)
    requires top.parent.None? && child.parent == Some(top.uid) && child.after.None? && child.uid != top.uid
    ensures AddLayer([top], child) == [top, child] && CanAdd([top], child)
  {
    assert [top][1..] == [];
    assert Targets([top], Some(child.uid), child.parent, child.after) == [];
  }

  lemma {:induction false} NoTargets(x: Layer, y: Layer, uid: Option<Name>, parent: Option<Name>, after: Option<Name>)
    requires !Follows(x, uid, parent, after) && !Follows(y, uid, parent, after)
    ensures Fixup([x, y], uid, parent, after) == [x, y]
  {
    assert [x, y][1..] == [y] && [y][1..] == [];
    assert Targets([y], uid, parent, after) == [];
  }

  lemma {:induction false} MovedUnder(top: Layer, child: Layer)
    requires top.parent.None? && top.after.None? && child.parent == Some(top.uid) && child.after.None?
    requires child.uid != top.uid
    ensures CanMove([top, child], top.uid, Some(child.uid), None) && Find([top, child], top.uid) == Some(top)
    ensures MoveLayer([top, child], top.uid, Some(child.uid), None) == [top.(parent := Some(child.uid)), child]
  {
    NoTargets(top, child, None, None, Some(top.uid));
    NoTargets(top, child, Some(top.uid), Some(child.uid), None);
    assert [top, child][1..] == [child];
  }
}
