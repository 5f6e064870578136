/**
 `layer_trees`: the top-level layers of a mission with their descendants, each level in
 order. Parent links are not checked when they are stored and may form cycles; layers on or
 below a cycle are never reached from the top.
 */
module LayerTrees {
  import opened Common
  import opened LayerOrder
  import opened LayerChecks
  import opened LayerSort
  import opened LayerChains

  datatype Tree = Tree(layer: Layer, children: seq<Tree>)

  /** Layers in the order the trees list them, parents before children. */
  function Flatten(trees: seq<Tree>): seq<Layer> {
    if trees == [] then []
    else Flatten(trees[..|trees| - 1]) + [trees[|trees| - 1].layer] + Flatten(trees[|trees| - 1].children)
  }

  ghost function Roots(trees: seq<Tree>): seq<Layer> {
    seq(|trees|, i requires 0 <= i < |trees| => trees[i].layer)
  }

  /** Every level shows the layers of its parent, in order. */
  ghost predicate InOrder(all: seq<Layer>, parent: Option<Name>, trees: seq<Tree>)
    decreases trees
  {
    && Roots(trees) == Ordered(Siblings(all, parent))
    && forall i :: 0 <= i < |trees| ==> InOrder(all, Some(trees[i].layer.uid), trees[i].children)
  }

  // ----- Paths down from a parent -----

  ghost predicate OnPath(all: seq<Layer>, base: Option<Name>, w: seq<Layer>, i: int)
    requires 0 <= i < |w|
  {
    w[i] in all && w[i].parent == if i == 0 then base else Some(w[i - 1].uid)
  }

  /** `w` starts at a layer under `base` and goes from parent to child. */
  ghost predicate IsPath(all: seq<Layer>, base: Option<Name>, w: seq<Layer>) {
    forall i :: 0 <= i < |w| ==> OnPath(all, base, w, i)
  }

  /** The parent links of `l` lead to `base`. */
  ghost predicate Below(all: seq<Layer>, base: Option<Name>, l: Layer) {
    exists w :: w != [] && IsPath(all, base, w) && w[|w| - 1] == l
  }

  /** The parent links of `l` reach the top. */
  ghost predicate ReachesTop(all: seq<Layer>, l: Layer) {
    Below(all, None, l)
  }

  /** `uid` is a proper ancestor of itself. */
  ghost predicate OnCycle(all: seq<Layer>, uid: Name) {
    exists l: Layer :: l.uid == uid && Below(all, Some(uid), l)
  }

  /** Uids are distinct and no path from `base` comes back to it. */
  ghost predicate Rooted(all: seq<Layer>, base: Option<Name>) {
    DistinctUids(all) && (base.Some? ==> !OnCycle(all, base.value))
  }

  ghost function ParentOf(base: Option<Name>, path: seq<Layer>): Option<Name> {
    if path == [] then base else Some(path[|path| - 1].uid)
  }

  lemma PathPrefix(all: seq<Layer>, base: Option<Name>, w: seq<Layer>, n: nat)
    requires IsPath(all, base, w) && n <= |w|
    ensures IsPath(all, base, w[..n])
  {
    forall i | 0 <= i < n
      ensures OnPath(all, base, w[..n], i)
    {
      assert OnPath(all, base, w, i);
    }
  }

  /** Only the first layer of a path has `base` as its parent. */
  lemma NoReturn(all: seq<Layer>, base: Option<Name>, w: seq<Layer>, i: nat)
    requires Rooted(all, base) && IsPath(all, base, w) && 0 < i < |w|
    ensures w[i].parent != base
  {
    assert OnPath(all, base, w, i);
    if w[i].parent == base {
      PathPrefix(all, base, w, i);
      assert w[..i] != [] && w[..i][|w[..i]| - 1] == w[i - 1];
      assert Below(all, base, w[i - 1]);
    }
  }

  /** Two paths to one layer agree step by step, counted from the layer. */
  lemma {:induction false} PathsAgree(all: seq<Layer>, base: Option<Name>, v: seq<Layer>, w: seq<Layer>, k: nat)
    requires Rooted(all, base) && IsPath(all, base, v) && IsPath(all, base, w) && v != [] && w != []
    requires v[|v| - 1] == w[|w| - 1] && k < |v|
    ensures k < |w| && v[|v| - 1 - k] == w[|w| - 1 - k]
  {
    if k > 0 {
      PathsAgree(all, base, v, w, k - 1);
      var i, j := |v| - k, |w| - k;
      assert OnPath(all, base, v, i) && OnPath(all, base, w, j);
      NoReturn(all, base, v, i);
      assert OnPath(all, base, v, i - 1) && (j > 0 ==> OnPath(all, base, w, j - 1));
      SameUid(all, v[i - 1], w[j - 1]);
    }
  }

  /** There is only one path to a layer. */
  lemma PathUnique(all: seq<Layer>, base: Option<Name>, v: seq<Layer>, w: seq<Layer>)
    requires Rooted(all, base) && IsPath(all, base, v) && IsPath(all, base, w) && v != [] && w != []
    requires v[|v| - 1] == w[|w| - 1]
    ensures v == w
  {
    PathsAgree(all, base, v, w, |v| - 1);
    PathsAgree(all, base, w, v, |w| - 1);
    forall i | 0 <= i < |v|
      ensures v[i] == w[i]
    {
      PathsAgree(all, base, v, w, |v| - 1 - i);
    }
  }

  lemma PathExtend(all: seq<Layer>, base: Option<Name>, path: seq<Layer>, l: Layer)
    requires IsPath(all, base, path) && l in all && l.parent == ParentOf(base, path)
    ensures IsPath(all, base, path + [l])
  {
    var w := path + [l];
    forall i | 0 <= i < |w|
      ensures OnPath(all, base, w, i)
    {
      if i < |path| { assert OnPath(all, base, path, i); }
    }
  }

  /** A path never meets a layer twice, so it cannot grow for ever. */
  lemma PathFresh(all: seq<Layer>, base: Option<Name>, path: seq<Layer>, l: Layer)
    requires Rooted(all, base) && IsPath(all, base, path) && l in all && l.parent == ParentOf(base, path)
    ensures l !in path
  {
    PathExtend(all, base, path, l);
    forall j | 0 <= j < |path|
      ensures path[j] != l
    {
      PathPrefix(all, base, path, j + 1);
      if path[j] == l { PathUnique(all, base, path[..j + 1], path + [l]); }
    }
  }

  ghost function LayerSet(ls: seq<Layer>): set<Layer> {
    set l | l in ls
  }

  // ----- What a level's trees hold -----

  /** `l` is reached from the end of `path` through the child `x`. */
  ghost predicate Through(all: seq<Layer>, base: Option<Name>, path: seq<Layer>, x: Layer, l: Layer) {
    exists w :: IsPath(all, base, path + [x] + w) && (path + [x] + w)[|path + w|] == l
  }

  ghost predicate ThroughAny(all: seq<Layer>, base: Option<Name>, path: seq<Layer>, level: seq<Layer>, l: Layer) {
    exists x :: x in level && Through(all, base, path, x, l)
  }

  /** Below the end of `path`: exactly the layers reached from there, each once. */
  ghost predicate Lists(all: seq<Layer>, base: Option<Name>, path: seq<Layer>, level: seq<Layer>, ls: seq<Layer>) {
    Distinct(ls) && forall l :: l in ls <==> ThroughAny(all, base, path, level, l)
  }

  lemma ThroughUnique(all: seq<Layer>, base: Option<Name>, path: seq<Layer>, x: Layer, y: Layer, l: Layer)
    requires Rooted(all, base) && Through(all, base, path, x, l) && Through(all, base, path, y, l)
    ensures x == y
  {
    var v :| IsPath(all, base, path + [x] + v) && (path + [x] + v)[|path + v|] == l;
    var w :| IsPath(all, base, path + [y] + w) && (path + [y] + w)[|path + w|] == l;
    PathUnique(all, base, path + [x] + v, path + [y] + w);
    assert (path + [x] + v)[|path|] == x && (path + [y] + w)[|path|] == y;
  }

  lemma ThroughDown(all: seq<Layer>, base: Option<Name>, path: seq<Layer>, x: Layer, w: seq<Layer>)
    requires Rooted(all, base) && w != [] && IsPath(all, base, path + [x] + w)
    ensures ThroughAny(all, base, path + [x], Siblings(all, Some(x.uid)), w[|w| - 1])
  {
    var full := path + [x] + w;
    SiblingsSpec(all, Some(x.uid));
    assert full == path + [x] + [w[0]] + w[1..];
    assert OnPath(all, base, full, |path| + 1) && full[|path| + 1] == w[0] && full[|path|] == x;
    assert full[|path + [x] + w[1..]|] == w[|w| - 1];
    assert Through(all, base, path + [x], w[0], w[|w| - 1]);
  }

  lemma ThroughUp(all: seq<Layer>, base: Option<Name>, path: seq<Layer>, x: Layer, y: Layer, l: Layer)
    requires Rooted(all, base) && IsPath(all, base, path + [x]) && Through(all, base, path + [x], y, l)
    ensures Through(all, base, path, x, l) && l != x
  {
    var w :| IsPath(all, base, path + [x] + [y] + w) && (path + [x] + [y] + w)[|path + [x] + w|] == l;
    assert path + [x] + [y] + w == path + [x] + ([y] + w);
    assert (path + [x] + ([y] + w))[|path + ([y] + w)|] == l;
    if l == x { PathUnique(all, base, path + [x] + [y] + w, path + [x]); }
  }

  /** A layer reached through `x` is `x` itself or below it, never both. */
  lemma ThroughSplit(all: seq<Layer>, base: Option<Name>, path: seq<Layer>, x: Layer, l: Layer)
    requires Rooted(all, base) && IsPath(all, base, path + [x])
    ensures Through(all, base, path, x, l) <==> l == x || ThroughAny(all, base, path + [x], Siblings(all, Some(x.uid)), l)
    ensures l == x ==> !ThroughAny(all, base, path + [x], Siblings(all, Some(x.uid)), l)
  {
    if l == x {
      assert path + [x] + [] == path + [x] && (path + [x] + [])[|path + []|] == l;
    }
    if w :| IsPath(all, base, path + [x] + w) && (path + [x] + w)[|path + w|] == l {
      if w != [] {
        ThroughDown(all, base, path, x, w);
        assert w[|w| - 1] == l;
      }
    }
    if y :| y in Siblings(all, Some(x.uid)) && Through(all, base, path + [x], y, l) {
      ThroughUp(all, base, path, x, y, l);
    }
  }

  lemma DistinctConcat<T>(a: seq<T>, b: seq<T>)
    requires Distinct(a) && Distinct(b) && forall x :: x in a ==> x !in b
    ensures Distinct(a + b)
  {
    var c := a + b;
    forall i, j | 0 <= i < j < |c|
      ensures c[i] != c[j]
    {
      if i < |a| <= j {
        assert a[i] in a && b[j - |a|] in b;
      }
    }
  }

  /** Taking in one more child of a level. */
  lemma {:induction false} ListsNext(all: seq<Layer>, base: Option<Name>, path: seq<Layer>, level: seq<Layer>, ls: seq<Layer>, x: Layer, below: seq<Layer>)
    requires Rooted(all, base) && IsPath(all, base, path + [x]) && x !in level
    requires Lists(all, base, path, level, ls) && Lists(all, base, path + [x], Siblings(all, Some(x.uid)), below)
    ensures Lists(all, base, path, level + [x], ls + [x] + below)
  {
    forall l
      ensures l in [x] + below <==> Through(all, base, path, x, l)
    {
      ThroughSplit(all, base, path, x, l);
    }
    ThroughSplit(all, base, path, x, x);
    DistinctConcat([x], below);
    forall l | l in ls
      ensures l !in [x] + below
    {
      var y :| y in level && Through(all, base, path, y, l);
      if Through(all, base, path, x, l) { ThroughUnique(all, base, path, x, y, l); }
    }
    DistinctConcat(ls, [x] + below);
    assert ls + [x] + below == ls + ([x] + below);
    forall l
      ensures l in ls + [x] + below <==> ThroughAny(all, base, path, level + [x], l)
    {
      if l in ls {
        var y :| y in level && Through(all, base, path, y, l);
        assert y in level + [x];
      }
      if l in [x] + below { assert x in level + [x]; }
      if y :| y in level + [x] && Through(all, base, path, y, l) {
        assert y in level || y == x;
      }
    }
  }

  lemma FlattenAppend(trees: seq<Tree>, t: Tree)
    ensures Flatten(trees + [t]) == Flatten(trees) + [t.layer] + Flatten(t.children)
    ensures Roots(trees + [t]) == Roots(trees) + [t.layer]
  {
    assert (trees + [t])[..|trees|] == trees;
  }

  lemma PathShrinks(all: seq<Layer>, path: seq<Layer>, l: Layer)
    requires l in all && l !in path
    ensures LayerSet(all) - LayerSet(path + [l]) < LayerSet(all) - LayerSet(path)
  {
    assert l in LayerSet(all) - LayerSet(path) && l in path + [l];
    forall k | k in path
      ensures k in path + [l]
    {
    }
  }

  lemma LevelSpec(all: seq<Layer>, parent: Option<Name>, level: seq<Layer>)
    requires DistinctUids(all) && level == Ordered(Siblings(all, parent))
    ensures Distinct(level) && multiset(level) == multiset(Siblings(all, parent))
    ensures forall l :: l in level ==> l in all && l.parent == parent
  {
    var sibs := Siblings(all, parent);
    SiblingsSpec(all, parent);
    OrderedUnique(sibs, sibs, []);
    DistinctPermutation(sibs, level);
    forall l | l in level
      ensures l in all && l.parent == parent
    {
      SameElements(level, sibs, l);
    }
  }

  lemma ListsPermutation(all: seq<Layer>, base: Option<Name>, path: seq<Layer>, a: seq<Layer>, b: seq<Layer>, ls: seq<Layer>)
    requires Lists(all, base, path, a, ls) && multiset(a) == multiset(b)
    ensures Lists(all, base, path, b, ls)
  {
    forall l
      ensures ThroughAny(all, base, path, a, l) <==> ThroughAny(all, base, path, b, l)
    {
      if x :| x in a && Through(all, base, path, x, l) { SameElements(a, b, x); }
      if x :| x in b && Through(all, base, path, x, l) { SameElements(a, b, x); }
    }
  }

  /** The trees of the layers `level`, below the end of `path`. */
  ghost predicate Built(all: seq<Layer>, base: Option<Name>, path: seq<Layer>, level: seq<Layer>, trees: seq<Tree>) {
    && Roots(trees) == level
    && (forall k :: 0 <= k < |trees| ==> InOrder(all, Some(trees[k].layer.uid), trees[k].children))
    && Lists(all, base, path, level, Flatten(trees))
  }

  ghost predicate Level(all: seq<Layer>, base: Option<Name>, path: seq<Layer>, level: seq<Layer>) {
    && Rooted(all, base) && IsPath(all, base, path) && Distinct(level)
    && forall i :: 0 <= i < |level| ==> level[i] in all && level[i].parent == ParentOf(base, path)
  }

  lemma BuiltNext(all: seq<Layer>, base: Option<Name>, path: seq<Layer>, level: seq<Layer>, i: nat, trees: seq<Tree>, children: seq<Tree>)
    requires Level(all, base, path, level) && i < |level| && Built(all, base, path, level[..i], trees)
    requires InOrder(all, Some(level[i].uid), children)
    requires Lists(all, base, path + [level[i]], Siblings(all, Some(level[i].uid)), Flatten(children))
    ensures Built(all, base, path, level[..i + 1], trees + [Tree(level[i], children)])
  {
    var layer := level[i];
    var more := trees + [Tree(layer, children)];
    PathExtend(all, base, path, layer);
    ListsNext(all, base, path, level[..i], Flatten(trees), layer, Flatten(children));
    assert level[..i + 1] == level[..i] + [layer];
    FlattenAppend(trees, Tree(layer, children));
    forall k | 0 <= k < |more|
      ensures InOrder(all, Some(more[k].layer.uid), more[k].children)
    {
      if k < |trees| { assert more[k] == trees[k]; }
    }
  }

  lemma Descend(all: seq<Layer>, base: Option<Name>, path: seq<Layer>, level: seq<Layer>, i: nat)
    requires Level(all, base, path, level) && i < |level|
    ensures IsPath(all, base, path + [level[i]]) && Some(level[i].uid) == ParentOf(base, path + [level[i]])
    ensures LayerSet(all) - LayerSet(path + [level[i]]) < LayerSet(all) - LayerSet(path)
  {
    PathExtend(all, base, path, level[i]);
    PathFresh(all, base, path, level[i]);
    PathShrinks(all, path, level[i]);
  }

  lemma LevelDone(all: seq<Layer>, base: Option<Name>, path: seq<Layer>, level: seq<Layer>, trees: seq<Tree>)
    requires Rooted(all, base) && level == Ordered(Siblings(all, ParentOf(base, path))) && Built(all, base, path, level, trees)
    ensures InOrder(all, ParentOf(base, path), trees) && Lists(all, base, path, Siblings(all, ParentOf(base, path)), Flatten(trees))
  {
    LevelSpec(all, ParentOf(base, path), level);
    ListsPermutation(all, base, path, level, Siblings(all, ParentOf(base, path)), Flatten(trees));
  }

  lemma LevelStart(all: seq<Layer>, base: Option<Name>, path: seq<Layer>, level: seq<Layer>)
    requires Rooted(all, base) && IsPath(all, base, path) && level == Ordered(Siblings(all, ParentOf(base, path)))
    ensures Level(all, base, path, level) && Built(all, base, path, [], [])
  {
    LevelSpec(all, ParentOf(base, path), level);
    forall i | 0 <= i < |level|
      ensures level[i] in all && level[i].parent == ParentOf(base, path)
    {
      assert level[i] in level;
    }
  }

  lemma {:induction false} PathThrough(all: seq<Layer>, base: Option<Name>, w: seq<Layer>)
    requires DistinctUids(all) && w != [] && IsPath(all, base, w)
    ensures ThroughAny(all, base, [], Siblings(all, base), w[|w| - 1])
  {
    SiblingsSpec(all, base);
    assert OnPath(all, base, w, 0);
    var v := w[1..];
    assert w == [] + [w[0]] + v;
    assert ([] + [w[0]] + v)[|[] + v|] == w[|w| - 1];
    assert Through(all, base, [], w[0], w[|w| - 1]);
  }

  lemma {:induction false} ThroughReaches(all: seq<Layer>, base: Option<Name>, x: Layer, l: Layer)
    requires Through(all, base, [], x, l)
    ensures Below(all, base, l)
  {
    var w :| IsPath(all, base, [] + [x] + w) && ([] + [x] + w)[|[] + w|] == l;
    var full := [] + [x] + w;
    assert full != [] && full[|full| - 1] == l;
  }

  /** What is reached from a parent is what is below it. */
  lemma {:induction false} ThroughIsBelow(all: seq<Layer>, base: Option<Name>, l: Layer)
    requires DistinctUids(all)
    ensures ThroughAny(all, base, [], Siblings(all, base), l) <==> Below(all, base, l)
  {
    if x :| x in Siblings(all, base) && Through(all, base, [], x, l) {
      ThroughReaches(all, base, x, l);
    }
    if w :| w != [] && IsPath(all, base, w) && w[|w| - 1] == l {
      PathThrough(all, base, w);
    }
  }

  lemma {:induction false} ListsAreBelow(all: seq<Layer>, base: Option<Name>, ls: seq<Layer>)
    requires DistinctUids(all) && Lists(all, base, [], Siblings(all, base), ls)
    ensures Distinct(ls) && forall l :: l in ls <==> Below(all, base, l)
  {
    forall l
      ensures l in ls <==> Below(all, base, l)
    {
      ThroughIsBelow(all, base, l);
    }
  }

  // ----- The code -----

  /** The trees below the end of `path`: in order, and exactly the layers reached from there,
      each once. Ends whatever the other parent links are. */
  method Build(all: seq<Layer>, parent: Option<Name>, ghost base: Option<Name>, ghost path: seq<Layer>)
    returns (trees: seq<Tree>)
    requires Rooted(all, base) && IsPath(all, base, path) && parent == ParentOf(base, path)
    ensures InOrder(all, parent, trees)
    ensures Lists(all, base, path, Siblings(all, parent), Flatten(trees))
    decreases LayerSet(all) - LayerSet(path)
  {
    var level := SortLayers(Siblings(all, parent));
    LevelStart(all, base, path, level);
    trees := [];
    for i := 0 to |level|
      invariant Built(all, base, path, level[..i], trees)
    {
      Descend(all, base, path, level, i);
      var children := Build(all, Some(level[i].uid), base, path + [level[i]]);
      BuiltNext(all, base, path, level, i, trees, children);
      trees := trees + [Tree(level[i], children)];
    }
    assert level[..|level|] == level;
    LevelDone(all, base, path, level, trees);
  }

  /** With distinct uids, listing the layers terminates in every state, even one whose parent
      links form cycles. Every level is in order, and the trees hold exactly the layers whose
      parent links reach the top, each once. */
  method LayerTrees(all: seq<Layer>) returns (trees: seq<Tree>)
    requires DistinctUids(all)
    ensures InOrder(all, None, trees)
    ensures Distinct(Flatten(trees))
    ensures forall l :: l in Flatten(trees) <==> ReachesTop(all, l)
  {
    trees := Build(all, None, None, []);
    ListsAreBelow(all, None, Flatten(trees));
  }

  /** One layer with what is below it. The recursion ends if the layer is not on a cycle of
      parents, and then lists exactly its descendants, each once and every level in order. */
  method LayerTree(all: seq<Layer>, uid: Name) returns (tree: Option<Tree>)
    requires DistinctUids(all) && !OnCycle(all, uid)
    ensures tree.None? <==> Find(all, uid).None?
    ensures tree.Some? ==>
      && tree.value.layer == Find(all, uid).value
      && InOrder(all, Some(uid), tree.value.children)
      && Distinct(Flatten(tree.value.children))
      && forall l :: l in Flatten(tree.value.children) <==> Below(all, Some(uid), l)
  {
    var layer := Find(all, uid);
    if layer.None? { return None; }
    var children := Build(all, Some(uid), Some(uid), []);
    ListsAreBelow(all, Some(uid), Flatten(children));
    tree := Some(Tree(layer.value, children));
  }
}
