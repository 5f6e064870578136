/** What the two event edits promise together: they can be made in either order, stripping
    takes away one routing element at a time, and adding a source changes nothing else exactly
    when no attribute is lost. */
module CotLaws {
  import opened Common
  import opened CotEdit

  lemma {:induction false} FirstIs(nodes: seq<Node>, p: Node -> bool, k: nat)
    requires k <= |nodes| && (k < |nodes| ==> p(nodes[k])) && forall i :: 0 <= i < k ==> !p(nodes[i])
    ensures First(nodes, p) == k
  {
  }

  lemma {:induction false} FirstHead(n: Node, nodes: seq<Node>, p: Node -> bool)
    ensures First([n] + nodes, p) == if p(n) then 0 else 1 + First(nodes, p)
  {
    assert ([n] + nodes)[1..] == nodes;
  }

  lemma {:induction false} RemovedBehind(n: Node, nodes: seq<Node>, k: nat)
    ensures k < |nodes| ==> ([n] + nodes)[..k + 1] + ([n] + nodes)[k + 2..] == [n] + (nodes[..k] + nodes[k + 1..])
  {
  }

  lemma {:induction false} RemovedBefore(nodes: seq<Node>, n: Node, k: nat)
    ensures k < |nodes| ==> (nodes + [n])[..k] + (nodes + [n])[k + 1..] == nodes[..k] + nodes[k + 1..] + [n]
  {
  }

  // ----- Either order -----

  lemma {:induction false} RemoveMartiAppend(kids: seq<Node>, source: Node)
    requires !IsMarti(source)
    ensures RemoveMarti(kids + [source]) == RemoveMarti(kids) + [source]
  {
    var k := First(kids, IsMarti);
    FirstIs(kids + [source], IsMarti, if k < |kids| then k else |kids| + 1);
    RemovedBefore(kids, source, k);
  }

  lemma {:induction false} ExtendedRouted(n: Node, source: Node)
    requires IsDetail(n) && !IsMarti(source)
    ensures Routed(Extended(n, source)) <==> Routed(n)
  {
    if Routed(n) {
      var i :| 0 <= i < |n.kids| && IsMarti(n.kids[i]);
      assert Extended(n, source).kids[i] == n.kids[i];
    }
  }

  /** What stripping leaves of a routed `detail`. */
  function Unrouted(n: Node): Node
    requires Routed(n)
  {
    n.(kids := RemoveMarti(n.kids))
  }

  lemma {:induction false} ExtendedUnrouted(n: Node, source: Node)
    requires Routed(n) && !IsMarti(source)
    ensures Routed(Extended(n, source)) && Unrouted(Extended(n, source)) == Extended(Unrouted(n), source)
  {
    ExtendedRouted(n, source);
    RemoveMartiAppend(n.kids, source);
  }

  lemma {:induction false} SameFirst(nodes: seq<Node>, j: nat, n: Node, p: Node -> bool)
    requires j < |nodes| && p(n) == p(nodes[j])
    ensures First(nodes[j := n], p) == First(nodes, p)
  {
    FirstIs(nodes[j := n], p, First(nodes, p));
  }

  lemma {:induction false} NoneRouted(kids: seq<Node>, source: Node)
    requires First(kids, IsDetail) == |kids| && !IsMarti(source)
    ensures First(kids, Routed) == |kids|
    ensures var made := kids + [Element(DetailTag, [], [source])]; First(made, Routed) == |made|
  {
    forall i | 0 <= i < |kids|
      ensures !Routed(kids[i])
    {
      assert !IsDetail(kids[i]);
    }
    FirstIs(kids, Routed, |kids|);
    var made := kids + [Element(DetailTag, [], [source])];
    FirstIs(made, Routed, |made|);
  }

  lemma {:induction false} DetailCommutes(kids: seq<Node>, source: Node, create: bool)
    requires First(kids, IsDetail) < |kids| && !IsMarti(source)
    ensures StripKids(AddToKids(kids, source, create)) == AddToKids(StripKids(kids), source, create)
  {
    var a, r := First(kids, IsDetail), First(kids, Routed);
    ExtendedRouted(kids[a], source);
    SameFirst(kids, a, Extended(kids[a], source), Routed);
    if r < |kids| {
      SameFirst(kids, r, Unrouted(kids[r]), IsDetail);
      if a == r {
        ExtendedUnrouted(kids[r], source);
      }
    }
  }

  lemma {:induction false} KidsCommute(kids: seq<Node>, source: Node, create: bool)
    requires !IsMarti(source)
    ensures StripKids(AddToKids(kids, source, create)) == AddToKids(StripKids(kids), source, create)
  {
    if First(kids, IsDetail) == |kids| {
      NoneRouted(kids, source);
    } else {
      DetailCommutes(kids, source, create);
    }
  }

  /** The two edits commute on every document. */
  lemma {:induction false} EditsCommute(d: Document, source: Node)
    requires !IsMarti(source)
    ensures Strip(Add(d, source)) == Add(Strip(d), source)
  {
    if d.root.Element? {
      KidsCommute(d.root.kids, source, d.root.tag == EventTag);
    }
  }

  /** The same of the two reader loops: whichever runs first, the same tokens come out. */
  lemma {:induction false} LoopsCommute(d: Document, source: Node)
    requires !IsMarti(source)
    ensures var add := Adding(Tokens(source));
      Run(StripStep, Run(add, Printed(d), INITIAL), INITIAL) == Run(add, Run(StripStep, Printed(d), INITIAL), INITIAL)
  {
    AddIs(d, source);
    StripIs(d);
    StripIs(Add(d, source));
    AddIs(Strip(d), source);
    EditsCommute(d, source);
  }

  // ----- One routing element at a time -----

  function Martis(kids: seq<Node>): nat {
    if kids == [] then 0 else (if IsMarti(kids[0]) then 1 else 0) + Martis(kids[1..])
  }

  function MartisOf(n: Node): nat {
    if n.Element? && n.tag == DetailTag then Martis(n.kids) else 0
  }

  function Total(kids: seq<Node>): nat {
    if kids == [] then 0 else MartisOf(kids[0]) + Total(kids[1..])
  }

  /** How many `/event/detail/marti` elements the document has. */
  function Routes(d: Document): nat {
    if d.root.Element? && d.root.tag == EventTag then Total(d.root.kids) else 0
  }

  lemma {:induction false} RemoveFirstHead(n: Node, kids: seq<Node>)
    requires IsMarti(n)
    ensures RemoveMarti([n] + kids) == kids
  {
    FirstHead(n, kids, IsMarti);
    assert ([n] + kids)[..0] + ([n] + kids)[1..] == kids;
  }

  lemma {:induction false} RemoveLaterHead(n: Node, kids: seq<Node>)
    requires !IsMarti(n)
    ensures RemoveMarti([n] + kids) == [n] + RemoveMarti(kids)
  {
    FirstHead(n, kids, IsMarti);
    RemovedBehind(n, kids, First(kids, IsMarti));
  }

  lemma {:induction false} MartisHead(n: Node, kids: seq<Node>)
    ensures Martis([n] + kids) == (if IsMarti(n) then 1 else 0) + Martis(kids)
  {
    assert ([n] + kids)[1..] == kids;
  }

  lemma {:induction false} MartisRemoved(kids: seq<Node>)
    ensures Martis(RemoveMarti(kids)) == if Martis(kids) == 0 then 0 else Martis(kids) - 1
    ensures Martis(kids) == 0 <==> First(kids, IsMarti) == |kids|
  {
    if kids != [] {
      var n, rest := kids[0], kids[1..];
      assert kids == [n] + rest;
      MartisRemoved(rest);
      FirstHead(n, rest, IsMarti);
      MartisHead(n, rest);
      if IsMarti(n) {
        RemoveFirstHead(n, rest);
      } else {
        RemoveLaterHead(n, rest);
        MartisHead(n, RemoveMarti(rest));
      }
    }
  }

  lemma {:induction false} RoutedIffCounted(n: Node)
    ensures Routed(n) <==> MartisOf(n) > 0
  {
    if n.Element? && n.tag == DetailTag {
      MartisRemoved(n.kids);
    }
  }

  lemma {:induction false} StripHead(n: Node, kids: seq<Node>)
    ensures StripKids([n] + kids) == if Routed(n) then [Unrouted(n)] + kids else [n] + StripKids(kids)
    ensures First([n] + kids, Routed) == if Routed(n) then 0 else 1 + First(kids, Routed)
  {
    FirstHead(n, kids, Routed);
  }

  lemma {:induction false} TotalHead(n: Node, kids: seq<Node>)
    ensures Total([n] + kids) == MartisOf(n) + Total(kids)
  {
    assert ([n] + kids)[1..] == kids;
  }

  lemma {:induction false} UnroutedCount(n: Node)
    requires Routed(n)
    ensures MartisOf(n) > 0 && MartisOf(Unrouted(n)) == MartisOf(n) - 1
  {
    RoutedIffCounted(n);
    MartisRemoved(n.kids);
  }

  lemma {:induction false} TotalStripped(kids: seq<Node>)
    ensures Total(StripKids(kids)) == if Total(kids) == 0 then 0 else Total(kids) - 1
    ensures Total(kids) == 0 <==> First(kids, Routed) == |kids|
  {
    if kids != [] {
      var n, rest := kids[0], kids[1..];
      assert kids == [n] + rest;
      TotalStripped(rest);
      StripHead(n, rest);
      TotalHead(n, rest);
      RoutedIffCounted(n);
      if Routed(n) {
        UnroutedCount(n);
        TotalHead(Unrouted(n), rest);
      } else {
        TotalHead(n, StripKids(rest));
      }
    }
  }

  /** Stripping takes one routing element away if there is one, and otherwise changes nothing. */
  lemma {:induction false} StripRemovesOne(d: Document)
    ensures Routes(Strip(d)) == if Routes(d) == 0 then 0 else Routes(d) - 1
    ensures Strip(d) == d <==> Routes(d) == 0
  {
    if d.root.Element? && d.root.tag == EventTag {
      TotalStripped(d.root.kids);
    }
  }

  /** Adding a source never adds or removes a routing element. */
  lemma {:induction false} AddKeepsRoutes(d: Document, source: Node)
    requires !IsMarti(source)
    ensures Routes(Add(d, source)) == Routes(d)
  {
    if d.root.Element? && d.root.tag == EventTag {
      TotalAdded(d.root.kids, source);
    }
  }

  lemma {:induction false} MartisAppend(kids: seq<Node>, source: Node)
    requires !IsMarti(source)
    ensures Martis(kids + [source]) == Martis(kids)
  {
    if kids == [] {
      assert (kids + [source])[1..] == [];
    } else {
      MartisAppend(kids[1..], source);
      assert (kids + [source])[1..] == kids[1..] + [source];
    }
  }

  lemma {:induction false} TotalAdded(kids: seq<Node>, source: Node)
    requires !IsMarti(source)
    ensures Total(AddToKids(kids, source, true)) == Total(kids)
  {
    var after := AddToKids(kids, source, true);
    if kids == [] {
      MartisAppend([], source);
      assert [] + [source] == [source] && after[1..] == [];
    } else if IsDetail(kids[0]) {
      assert after[1..] == kids[1..];
      MartisAppend(if kids[0].Element? then kids[0].kids else [], source);
      assert [] + [source] == [source];
    } else {
      TotalAdded(kids[1..], source);
      assert after == [kids[0]] + AddToKids(kids[1..], source, true);
      assert after[1..] == AddToKids(kids[1..], source, true);
    }
  }

  // ----- Nothing else changes, exactly when no attribute is lost -----

  /** The document read as XML: an empty element is the same however it is written. */
  function Meaning(n: Node): Node
    decreases n
  {
    match n
    case Text(_) => n
    case SelfClosed(tag, attrs) => Element(tag, attrs, [])
    case Element(tag, attrs, kids) => Element(tag, attrs, Meanings(kids))
  }

  function Meanings(nodes: seq<Node>): (r: seq<Node>)
    ensures |r| == |nodes| && forall i :: 0 <= i < |nodes| ==> r[i] == Meaning(nodes[i])
    decreases nodes
  {
    if nodes == [] then [] else [Meaning(nodes[0])] + Meanings(nodes[1..])
  }

  /** The children with a `detail` among them, as the edit makes sure there is. */
  function WithDetail(kids: seq<Node>): seq<Node> {
    if First(kids, IsDetail) < |kids| then kids else kids + [SelfClosed(DetailTag, [])]
  }

  /** The children with the last child of the first `detail` taken out again. */
  function TakenOut(kids: seq<Node>): seq<Node> {
    var k := First(kids, IsDetail);
    if k < |kids| && kids[k].Element? && kids[k].kids != []
    then kids[k := kids[k].(kids := kids[k].kids[..|kids[k].kids| - 1])]
    else kids
  }

  /** The first `detail` is self-closed and carries attributes. */
  predicate LosesAttributes(kids: seq<Node>) {
    var k := First(kids, IsDetail);
    k < |kids| && kids[k].SelfClosed? && kids[k].attrs != []
  }

  lemma {:induction false} DetailOf(kids: seq<Node>)
    ensures var k := First(kids, IsDetail);
      && k < |WithDetail(kids)| && IsDetail(WithDetail(kids)[k]) && First(WithDetail(kids), IsDetail) == k
  {
    FirstIs(WithDetail(kids), IsDetail, First(kids, IsDetail));
  }

  /** What is left when the source is taken out of a `detail` it was added to. */
  function Rest(detail: Node): Node
    requires IsDetail(detail)
  {
    if detail.Element? then detail else Element(DetailTag, [], [])
  }

  lemma {:induction false} TakenOutIs(kids: seq<Node>, source: Node)
    ensures var full, k := WithDetail(kids), First(kids, IsDetail);
      && k < |full| && IsDetail(full[k])
      && TakenOut(AddToKids(kids, source, true)) == full[k := Rest(full[k])]
  {
    var full, k := WithDetail(kids), First(kids, IsDetail);
    DetailOf(kids);
    var after := AddToKids(kids, source, true);
    assert after == full[k := Extended(full[k], source)];
    FirstIs(after, IsDetail, k);
    RestOfExtended(full[k], source);
  }

  lemma {:induction false} RestOfExtended(detail: Node, source: Node)
    requires IsDetail(detail)
    ensures var e := Extended(detail, source);
      e.Element? && e.kids != [] && e.(kids := e.kids[..|e.kids| - 1]) == Rest(detail)
  {
    var e := Extended(detail, source);
    if detail.Element? {
      assert e.kids[..|e.kids| - 1] == detail.kids;
    } else {
      assert e.kids[..|e.kids| - 1] == [];
    }
  }

  lemma {:induction false} MeaningsUpdate(nodes: seq<Node>, k: nat, n: Node)
    requires k < |nodes|
    ensures Meanings(nodes[k := n]) == Meanings(nodes) <==> Meaning(n) == Meaning(nodes[k])
  {
    if Meaning(n) == Meaning(nodes[k]) {
      assert Meanings(nodes[k := n]) == Meanings(nodes);
    } else {
      assert Meanings(nodes[k := n])[k] != Meanings(nodes)[k];
    }
  }

  /** Taking the source out again gives back the event as it was, up to an empty `detail`,
      exactly when its first `detail` is not self-closed with attributes. */
  lemma {:induction false} NothingElseChangesIff(kids: seq<Node>, source: Node)
    ensures Meanings(TakenOut(AddToKids(kids, source, true))) == Meanings(WithDetail(kids)) <==> !LosesAttributes(kids)
  {
    var full, k := WithDetail(kids), First(kids, IsDetail);
    TakenOutIs(kids, source);
    MeaningsUpdate(full, k, Rest(full[k]));
  }

  /** Such an event: the attribute of its empty `detail` is gone from the output. */
  lemma {:induction false} AttributeLost(a: Name, source: Node)
    ensures AddToKids([SelfClosed(DetailTag, [a])], source, true) == [Element(DetailTag, [], [source])]
    ensures LosesAttributes([SelfClosed(DetailTag, [a])])
  {
    FirstIs([SelfClosed(DetailTag, [a])], IsDetail, 0);
  }
}
