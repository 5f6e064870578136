/** The two edits the server makes to a CoT event on its way through: dropping the routing
    element and marking the event as coming from a data feed (src/cot.rs). */
module CotEdit {
  import opened Common

  datatype Tag = EventTag | DetailTag | MartiTag | OtherTag(name: Name)

  /** What the XML reader yields. `Other` is text, a comment, a declaration and the like. */
  datatype Token =
    | Start(tag: Tag, attrs: seq<Name>)
    | Empty(tag: Tag, attrs: seq<Name>)
    | End(tag: Tag)
    | Other(text: Name)

  datatype Node =
    | Text(text: Name)
    | SelfClosed(tag: Tag, attrs: seq<Name>)
    | Element(tag: Tag, attrs: seq<Name>, kids: seq<Node>)

  /** A document: declarations and comments around one root. */
  datatype Document = Document(before: seq<Name>, root: Node, after: seq<Name>)

  function Tokens(n: Node): seq<Token>
    decreases n
  {
    match n
    case Text(t) => [Other(t)]
    case SelfClosed(tag, attrs) => [Empty(tag, attrs)]
    case Element(tag, attrs, kids) => [Start(tag, attrs)] + Flat(kids) + [End(tag)]
  }

  function Flat(nodes: seq<Node>): seq<Token>
    decreases nodes
  {
    if nodes == [] then [] else Tokens(nodes[0]) + Flat(nodes[1..])
  }

  function Others(texts: seq<Name>): seq<Token> {
    if texts == [] then [] else [Other(texts[0])] + Others(texts[1..])
  }

  function Printed(d: Document): seq<Token> {
    Others(d.before) + Tokens(d.root) + Others(d.after)
  }

  // ----- What the edits mean on the tree -----

  predicate IsMarti(n: Node) {
    !n.Text? && n.tag == MartiTag
  }

  predicate IsDetail(n: Node) {
    !n.Text? && n.tag == DetailTag
  }

  /** A `detail` with a `marti` child. */
  predicate Routed(n: Node) {
    n.Element? && n.tag == DetailTag && exists k :: 0 <= k < |n.kids| && IsMarti(n.kids[k])
  }

  /** The first of `nodes` that satisfies `p`, or their number. */
  function First(nodes: seq<Node>, p: Node -> bool): (k: nat)
    ensures k <= |nodes| && (k < |nodes| ==> p(nodes[k]))
    ensures forall i :: 0 <= i < k ==> !p(nodes[i])
  {
    if nodes == [] || p(nodes[0]) then 0 else 1 + First(nodes[1..], p)
  }

  function RemoveMarti(kids: seq<Node>): seq<Node> {
    var k := First(kids, IsMarti);
    if k < |kids| then kids[..k] + kids[k + 1..] else kids
  }

  function StripKids(kids: seq<Node>): seq<Node> {
    var k := First(kids, Routed);
    if k < |kids| then kids[k := kids[k].(kids := RemoveMarti(kids[k].kids))] else kids
  }

  /** The document without its first `/event/detail/marti`. */
  function Strip(d: Document): Document {
    if d.root.Element? && d.root.tag == EventTag then d.(root := d.root.(kids := StripKids(d.root.kids))) else d
  }

  /** `detail` with `source` appended, as the code leaves it: a self-closed element is written
      anew. */
  function Extended(detail: Node, source: Node): Node
    requires IsDetail(detail)
  {
    if detail.Element? then detail.(kids := detail.kids + [source]) else Element(DetailTag, [], [source])
  }

  function AddToKids(kids: seq<Node>, source: Node, create: bool): seq<Node> {
    var k := First(kids, IsDetail);
    if k < |kids| then kids[k := Extended(kids[k], source)]
    else if create then kids + [Element(DetailTag, [], [source])]
    else kids
  }

  /** The document with `source` appended to the first `detail` child of its root, which is
      created, as the last child, in an `event` without one. */
  function Add(d: Document, source: Node): Document {
    if d.root.Element? then d.(root := d.root.(kids := AddToKids(d.root.kids, source, d.root.tag == EventTag))) else d
  }

  // ----- The reader loops, as functions of what is left to read -----

  /** The reader accepts an end tag only if it closes the innermost open element. */
  predicate Closes(open: seq<Tag>, tag: Tag) {
    open != [] && open[|open| - 1] == tag
  }

  function Popped(open: seq<Tag>): seq<Tag> {
    if open == [] then [] else open[..|open| - 1]
  }

  /** What is left after the end tag that closes an element `tag` just opened: the reader
      counts only elements of that name. */
  function SkipToEnd(ts: seq<Token>, tag: Tag, depth: nat, open: seq<Tag>): Option<seq<Token>> {
    if ts == [] then None
    else
      match ts[0]
      case Start(t, _) => SkipToEnd(ts[1..], tag, if t == tag then depth + 1 else depth, open + [t])
      case End(t) =>
        if !Closes(open, t) then None
        else if t == tag && depth == 0 then Some(ts[1..])
        else SkipToEnd(ts[1..], tag, if t == tag then depth - 1 else depth, Popped(open))
      case Empty(_, _) => SkipToEnd(ts[1..], tag, depth, open)
      case Other(_) => SkipToEnd(ts[1..], tag, depth, open)
  }

  /** Where the reader is: the open elements, and whether a `detail` of the root was entered. */
  datatype State = State(open: seq<Tag>, inDetail: bool)

  /** What a loop does with the next token: go on past it, or finish with the given rest. */
  datatype Act = Pass(next: State) | Stop(rest: seq<Token>)

  type Step = (State, Token, seq<Token>) -> Act

  function Push(s: State, tag: Tag): State {
    s.(open := s.open + [tag])
  }

  function Pop(s: State): State {
    s.(open := Popped(s.open))
  }

  const ROUTE := [EventTag, DetailTag]
  const INITIAL := State([], false)

  function StripStep(s: State, t: Token, rest: seq<Token>): Act {
    match t
    case Start(tag, _) =>
      if tag == MartiTag && s.open == ROUTE then
        var after := SkipToEnd(rest, MartiTag, 0, s.open + [tag]);
        Stop(if after.None? then [t] + rest else after.value)
      else Pass(Push(s, tag))
    case Empty(tag, _) => if tag == MartiTag && s.open == ROUTE then Stop(rest) else Pass(s)
    case End(tag) => if Closes(s.open, tag) then Pass(Pop(s)) else Stop([t] + rest)
    case Other(_) => Pass(s)
  }

  function NewDetail(source: seq<Token>): seq<Token> {
    [Start(DetailTag, [])] + source + [End(DetailTag)]
  }

  function AddStep(source: seq<Token>, s: State, t: Token, rest: seq<Token>): Act {
    match t
    case Start(tag, _) => Pass(State(s.open + [tag], s.inDetail || (|s.open| == 1 && tag == DetailTag)))
    case Empty(tag, _) => if |s.open| == 1 && tag == DetailTag then Stop(NewDetail(source) + rest) else Pass(s)
    case End(tag) =>
      if !Closes(s.open, tag) then Stop([t] + rest)
      else if |s.open| == 2 && s.inDetail && tag == DetailTag then Stop(source + ([t] + rest))
      else if |s.open| == 1 && tag == EventTag then Stop(NewDetail(source) + ([t] + rest))
      else Pass(Pop(s))
    case Other(_) => Pass(s)
  }

  function Adding(source: seq<Token>): Step {
    (s: State, t: Token, rest: seq<Token>) => AddStep(source, s, t, rest)
  }

  /** A whole loop: what it returns for the tokens left. */
  function Run(step: Step, ts: seq<Token>, s: State): seq<Token> {
    if ts == [] then []
    else
      var act := step(s, ts[0], ts[1..]);
      if act.Stop? then act.rest else [ts[0]] + Run(step, ts[1..], act.next)
  }

  // ----- The loops -----

  method ReadToEnd(ts: seq<Token>, from: nat, tag: Tag, path: seq<Tag>) returns (after: Option<nat>)
    requires from <= |ts|
    ensures after.Some? ==> from < after.value <= |ts|
    ensures SkipToEnd(ts[from..], tag, 0, path) == if after.None? then None else Some(ts[after.value..])
  {
    var i, depth, open := from, 0, path;
    while i < |ts|
      invariant from <= i <= |ts|
      invariant SkipToEnd(ts[from..], tag, 0, path) == SkipToEnd(ts[i..], tag, depth, open)
    {
      assert ts[i..][1..] == ts[i + 1..];
      match ts[i] {
        case Start(t, _) =>
          open := open + [t];
          if t == tag { depth := depth + 1; }
        case End(t) =>
          if !Closes(open, t) { return None; }
          if t == tag {
            if depth == 0 { return Some(i + 1); }
            depth := depth - 1;
          }
          open := Popped(open);
        case Empty(_, _) =>
        case Other(_) =>
      }
      i := i + 1;
    }
    return None;
  }

  /** The loop has passed the first `i` tokens and is in state `s`. */
  ghost predicate At(step: Step, xml: seq<Token>, i: nat, s: State) {
    i <= |xml| && Run(step, xml, INITIAL) == xml[..i] + Run(step, xml[i..], s)
  }

  lemma {:induction false} Advance(step: Step, xml: seq<Token>, i: nat, s: State, next: State)
    requires i < |xml| && At(step, xml, i, s) && step(s, xml[i], xml[i + 1..]) == Pass(next)
    ensures At(step, xml, i + 1, next)
  {
    assert xml[i..][1..] == xml[i + 1..] && xml[..i + 1] == xml[..i] + [xml[i]];
  }

  lemma {:induction false} Halt(step: Step, xml: seq<Token>, i: nat, s: State, rest: seq<Token>)
    requires i < |xml| && At(step, xml, i, s) && step(s, xml[i], xml[i + 1..]) == Stop(rest)
    ensures Run(step, xml, INITIAL) == xml[..i] + rest
  {
    assert xml[i..][1..] == xml[i + 1..];
  }

  lemma {:induction false} Finish(step: Step, xml: seq<Token>, s: State)
    requires At(step, xml, |xml|, s)
    ensures Run(step, xml, INITIAL) == xml
  {
  }

  lemma Whole(xml: seq<Token>, i: nat)
    requires i < |xml|
    ensures xml[..i] + ([xml[i]] + xml[i + 1..]) == xml && [xml[i]] + xml[i + 1..] == xml[i..]
  {
  }

  method StripMarti(xml: seq<Token>) returns (out: seq<Token>)
    ensures out == Run(StripStep, xml, INITIAL)
    ensures forall d :: xml == Printed(d) ==> out == Printed(Strip(d))
  {
    out := StripLoop(xml);
    forall d | xml == Printed(d)
      ensures out == Printed(Strip(d))
    {
      StripIs(d);
    }
  }

  method StripLoop(xml: seq<Token>) returns (out: seq<Token>)
    ensures out == Run(StripStep, xml, INITIAL)
  {
    var i, path := 0, [];
    while i < |xml|
      invariant i <= |xml| && At(StripStep, xml, i, State(path, false))
    {
      ghost var s := State(path, false);
      Whole(xml, i);
      match xml[i] {
        case Start(t, _) =>
          if t == MartiTag && path == ROUTE {
            var after := ReadToEnd(xml, i + 1, t, path + [t]);
            Halt(StripStep, xml, i, s, if after.None? then xml[i..] else xml[after.value..]);
            return if after.None? then xml else xml[..i] + xml[after.value..];
          }
          path := path + [t];
        case Empty(t, _) =>
          if t == MartiTag && path == ROUTE {
            Halt(StripStep, xml, i, s, xml[i + 1..]);
            return xml[..i] + xml[i + 1..];
          }
        case End(t) =>
          if !Closes(path, t) {
            Halt(StripStep, xml, i, s, xml[i..]);
            return xml;
          }
          path := Popped(path);
        case Other(_) =>
      }
      Advance(StripStep, xml, i, s, State(path, false));
      i := i + 1;
    }
    Finish(StripStep, xml, State(path, false));
    return xml;
  }

  method AddFeedSource(xml: seq<Token>, source: seq<Token>) returns (out: seq<Token>)
    ensures out == Run(Adding(source), xml, INITIAL)
    ensures forall d, n :: xml == Printed(d) && source == Tokens(n) ==> out == Printed(Add(d, n))
  {
    out := AddLoop(xml, source);
    forall d, n | xml == Printed(d) && source == Tokens(n)
      ensures out == Printed(Add(d, n))
    {
      AddIs(d, n);
    }
  }

  method AddLoop(xml: seq<Token>, source: seq<Token>) returns (out: seq<Token>)
    ensures out == Run(Adding(source), xml, INITIAL)
  {
    var i, depth, inDetail := 0, 0, false;
    var open: seq<Tag> := [];
    while i < |xml|
      invariant i <= |xml| && depth == |open| && At(Adding(source), xml, i, State(open, inDetail))
    {
      ghost var s := State(open, inDetail);
      Whole(xml, i);
      match xml[i] {
        case Start(t, _) =>
          open := open + [t];
          depth := depth + 1;
          if depth == 2 && t == DetailTag { inDetail := true; }
        case Empty(t, _) =>
          if depth == 1 && t == DetailTag {
            Halt(Adding(source), xml, i, s, NewDetail(source) + xml[i + 1..]);
            return xml[..i] + (NewDetail(source) + xml[i + 1..]);
          }
        case End(t) =>
          if !Closes(open, t) {
            Halt(Adding(source), xml, i, s, xml[i..]);
            return xml;
          }
          if depth == 2 && inDetail && t == DetailTag {
            Halt(Adding(source), xml, i, s, source + xml[i..]);
            return xml[..i] + (source + xml[i..]);
          }
          if depth == 1 && t == EventTag {
            Halt(Adding(source), xml, i, s, NewDetail(source) + xml[i..]);
            return xml[..i] + (NewDetail(source) + xml[i..]);
          }
          open := Popped(open);
          depth := if depth == 0 then 0 else depth - 1;
        case Other(_) =>
      }
      Advance(Adding(source), xml, i, s, State(open, inDetail));
      i := i + 1;
    }
    Finish(Adding(source), xml, State(open, inDetail));
    return xml;
  }

  // ----- Reading past a tree -----

  lemma Group(a: seq<Token>, b: seq<Token>, c: seq<Token>)
    ensures a + b + c == a + (b + c)
  {
  }

  lemma Regroup(a: seq<Token>, b: seq<Token>, c: seq<Token>, d: seq<Token>)
    ensures a + (b + c) + d == a + (b + (c + d))
  {
  }

  lemma Enclosed(a: seq<Token>, b: seq<Token>, c: seq<Token>, d: seq<Token>)
    ensures a + b + c + d == a + (b + (c + d))
  {
  }


  lemma {:induction false} FlatSplit(nodes: seq<Node>, k: nat)
    requires k <= |nodes|
    ensures Flat(nodes) == Flat(nodes[..k]) + Flat(nodes[k..])
  {
    if k > 0 {
      FlatSplit(nodes[1..], k - 1);
      assert nodes[..k][0] == nodes[0] && nodes[..k][1..] == nodes[1..][..k - 1] && nodes[k..] == nodes[1..][k - 1..];
    } else {
      assert nodes[..0] == [] && nodes[0..] == nodes;
    }
  }

  lemma {:induction false} FlatOne(n: Node)
    ensures Flat([n]) == Tokens(n)
  {
    assert [n][1..] == [];
  }

  lemma Innermost(open: seq<Tag>, tag: Tag)
    ensures Closes(open + [tag], tag) && Popped(open + [tag]) == open
  {
  }

  lemma {:induction false} SkipForest(nodes: seq<Node>, rest: seq<Token>, tag: Tag, depth: nat, open: seq<Tag>)
    ensures SkipToEnd(Flat(nodes) + rest, tag, depth, open) == SkipToEnd(rest, tag, depth, open)
    decreases nodes
  {
    if nodes == [] {
      assert Flat(nodes) + rest == rest;
    } else {
      var tail := Flat(nodes[1..]) + rest;
      Group(Tokens(nodes[0]), Flat(nodes[1..]), rest);
      SkipNode(nodes[0], tail, tag, depth, open);
      SkipForest(nodes[1..], rest, tag, depth, open);
    }
  }

  lemma {:induction false} SkipNode(n: Node, rest: seq<Token>, tag: Tag, depth: nat, open: seq<Tag>)
    ensures SkipToEnd(Tokens(n) + rest, tag, depth, open) == SkipToEnd(rest, tag, depth, open)
    decreases n
  {
    var ts := Tokens(n) + rest;
    if n.Element? {
      var deeper := if n.tag == tag then depth + 1 else depth;
      var inner := [End(n.tag)] + rest;
      assert ts[1..] == Flat(n.kids) + inner && inner[1..] == rest;
      SkipForest(n.kids, inner, tag, deeper, open + [n.tag]);
      Innermost(open, n.tag);
    } else {
      assert ts[1..] == rest;
    }
  }

  lemma {:induction false} RunPass(step: Step, t: Token, rest: seq<Token>, s: State, next: State)
    requires step(s, t, rest) == Pass(next)
    ensures Run(step, [t] + rest, s) == [t] + Run(step, rest, next)
  {
    assert ([t] + rest)[1..] == rest;
  }

  lemma {:induction false} RunStop(step: Step, t: Token, rest: seq<Token>, s: State, end: seq<Token>)
    requires step(s, t, rest) == Stop(end)
    ensures Run(step, [t] + rest, s) == end
  {
    assert ([t] + rest)[1..] == rest;
  }

  /** In a `deep` state a loop goes past everything an element holds, keeping count only of the
      open elements. */
  ghost predicate Passive(step: Step, deep: State -> bool) {
    && (forall s, tag, attrs, rest :: deep(s) ==> step(s, Start(tag, attrs), rest) == Pass(Push(s, tag)))
    && (forall s, tag, rest :: deep(s) ==> step(Push(s, tag), End(tag), rest) == Pass(s))
    && (forall s, tag, attrs, rest :: deep(s) ==> step(s, Empty(tag, attrs), rest) == Pass(s))
    && (forall s, text, rest :: deep(s) ==> step(s, Other(text), rest) == Pass(s))
    && (forall s, tag :: deep(s) ==> deep(Push(s, tag)))
  }

  lemma {:induction false} ForestPasses(step: Step, deep: State -> bool, nodes: seq<Node>, rest: seq<Token>, s: State)
    requires Passive(step, deep) && deep(s)
    ensures Run(step, Flat(nodes) + rest, s) == Flat(nodes) + Run(step, rest, s)
    decreases nodes
  {
    if nodes == [] {
      assert Flat(nodes) + rest == rest;
    } else {
      var tail := Flat(nodes[1..]) + rest;
      Group(Tokens(nodes[0]), Flat(nodes[1..]), rest);
      NodePasses(step, deep, nodes[0], tail, s);
      ForestPasses(step, deep, nodes[1..], rest, s);
    }
  }

  lemma {:induction false} NodePasses(step: Step, deep: State -> bool, n: Node, rest: seq<Token>, s: State)
    requires Passive(step, deep) && deep(s)
    ensures Run(step, Tokens(n) + rest, s) == Tokens(n) + Run(step, rest, s)
    decreases n
  {
    match n {
      case Text(t) => RunPass(step, Other(t), rest, s, s);
      case SelfClosed(tag, attrs) => RunPass(step, Empty(tag, attrs), rest, s, s);
      case Element(tag, attrs, kids) =>
        ForestPasses(step, deep, kids, [End(tag)] + rest, Push(s, tag));
        ElementPasses(step, n, rest, s, Push(s, tag));
    }
  }

  /** Entering an element. */
  lemma {:induction false} ElementRuns(step: Step, n: Node, rest: seq<Token>, s: State, next: State)
    requires n.Element?
    requires step(s, Start(n.tag, n.attrs), Flat(n.kids) + ([End(n.tag)] + rest)) == Pass(next)
    ensures Run(step, Tokens(n) + rest, s) ==
            [Start(n.tag, n.attrs)] + Run(step, Flat(n.kids) + ([End(n.tag)] + rest), next)
  {
    var inside := Flat(n.kids) + ([End(n.tag)] + rest);
    Enclosed([Start(n.tag, n.attrs)], Flat(n.kids), [End(n.tag)], rest);
    RunPass(step, Start(n.tag, n.attrs), inside, s, next);
  }

  // ----- Stripping -----

  /** Neither the root nor a `detail` of an `event`: nothing in here is touched. */
  ghost function OffRoute(): State -> bool {
    (s: State) => !(s.open <= ROUTE)
  }

  lemma OffRoutePassive()
    ensures Passive(StripStep, OffRoute())
  {
    forall s: State, tag: Tag, rest: seq<Token> | OffRoute()(s)
      ensures StripStep(Push(s, tag), End(tag), rest) == Pass(s)
    {
      Innermost(s.open, tag);
    }
    forall s: State, tag: Tag | OffRoute()(s)
      ensures OffRoute()(Push(s, tag))
    {
      StillOff(s.open, tag);
    }
  }

  lemma StillOff(open: seq<Tag>, tag: Tag)
    ensures !(open <= ROUTE) ==> !(open + [tag] <= ROUTE)
  {
    if open + [tag] <= ROUTE {
      assert open == (open + [tag])[..|open|] == ROUTE[..|open|];
    }
  }

  /** A node the route does not lead into. */
  lemma {:induction false} NodeStays(n: Node, rest: seq<Token>, s: State)
    requires n.Element? ==> !(s.open + [n.tag] <= ROUTE)
    requires s.open == ROUTE ==> !IsMarti(n)
    ensures Run(StripStep, Tokens(n) + rest, s) == Tokens(n) + Run(StripStep, rest, s)
  {
    match n {
      case Text(t) => RunPass(StripStep, Other(t), rest, s, s);
      case SelfClosed(tag, attrs) => RunPass(StripStep, Empty(tag, attrs), rest, s, s);
      case Element(tag, attrs, kids) =>
        OffRoutePassive();
        ForestPasses(StripStep, OffRoute(), kids, [End(tag)] + rest, Push(s, tag));
        Innermost(s.open, tag);
        ElementPasses(StripStep, n, rest, s, Push(s, tag));
    }
  }

  /** An element whose contents pass and whose end tag leads back to where it began. */
  lemma {:induction false} ElementPasses(step: Step, n: Node, rest: seq<Token>, s: State, next: State)
    requires n.Element?
    requires step(s, Start(n.tag, n.attrs), Flat(n.kids) + ([End(n.tag)] + rest)) == Pass(next)
    requires step(next, End(n.tag), rest) == Pass(s)
    requires Run(step, Flat(n.kids) + ([End(n.tag)] + rest), next) == Flat(n.kids) + Run(step, [End(n.tag)] + rest, next)
    ensures Run(step, Tokens(n) + rest, s) == Tokens(n) + Run(step, rest, s)
  {
    ElementRuns(step, n, rest, s, next);
    RunPass(step, End(n.tag), rest, next, s);
    Enclosed([Start(n.tag, n.attrs)], Flat(n.kids), [End(n.tag)], Run(step, rest, s));
  }

  /** `n` is passed over, whatever follows it. */
  ghost predicate Stays(step: Step, s: State, n: Node) {
    forall rest :: Run(step, Tokens(n) + rest, s) == Tokens(n) + Run(step, rest, s)
  }

  /** The loop ends at `n`, leaving `out` in its place and all that follows. */
  ghost predicate Becomes(step: Step, s: State, n: Node, out: seq<Token>) {
    forall rest :: Run(step, Tokens(n) + rest, s) == out + rest
  }

  lemma {:induction false} AllStay(step: Step, s: State, nodes: seq<Node>, rest: seq<Token>)
    requires forall i :: 0 <= i < |nodes| ==> Stays(step, s, nodes[i])
    ensures Run(step, Flat(nodes) + rest, s) == Flat(nodes) + Run(step, rest, s)
    decreases |nodes|
  {
    if nodes == [] {
      assert Flat(nodes) + rest == rest;
    } else {
      assert Stays(step, s, nodes[0]);
      Group(Tokens(nodes[0]), Flat(nodes[1..]), rest);
      AllStay(step, s, nodes[1..], rest);
    }
  }

  ghost function Replace(nodes: seq<Node>, k: nat, out: seq<Node>): seq<Node>
    requires k < |nodes|
  {
    nodes[..k] + out + nodes[k + 1..]
  }

  lemma {:induction false} FlatReplaced(nodes: seq<Node>, k: nat, out: seq<Node>)
    requires k < |nodes|
    ensures Flat(Replace(nodes, k, out)) == Flat(nodes[..k]) + (Flat(out) + Flat(nodes[k + 1..]))
  {
    var r, tail := Replace(nodes, k, out), out + nodes[k + 1..];
    FlatSplit(r, k);
    assert r[..k] == nodes[..k] && r[k..] == tail;
    FlatSplit(tail, |out|);
    assert tail[..|out|] == out && tail[|out|..] == nodes[k + 1..];
  }

  lemma {:induction false} FlatAround(nodes: seq<Node>, k: nat)
    requires k < |nodes|
    ensures Flat(nodes) == Flat(nodes[..k]) + (Tokens(nodes[k]) + Flat(nodes[k + 1..]))
  {
    FlatReplaced(nodes, k, [nodes[k]]);
    assert Replace(nodes, k, [nodes[k]]) == nodes;
    FlatOne(nodes[k]);
  }

  /** A loop that passes the nodes before the `k`-th and ends there. */
  lemma {:induction false} EndsAt(step: Step, s: State, nodes: seq<Node>, k: nat, out: seq<Node>, rest: seq<Token>)
    requires k < |nodes| && Becomes(step, s, nodes[k], Flat(out))
    requires forall i :: 0 <= i < k ==> Stays(step, s, nodes[i])
    ensures Run(step, Flat(nodes) + rest, s) == Flat(Replace(nodes, k, out)) + rest
  {
    var before, behind := nodes[..k], Flat(nodes[k + 1..]) + rest;
    FlatAround(nodes, k);
    Regroup(Flat(before), Tokens(nodes[k]), Flat(nodes[k + 1..]), rest);
    AllStay(step, s, before, Tokens(nodes[k]) + behind);
    FlatReplaced(nodes, k, out);
    Regroup(Flat(before), Flat(out), Flat(nodes[k + 1..]), rest);
  }

  lemma {:induction false} MartiSkipped(n: Node, rest: seq<Token>, s: State)
    requires IsMarti(n) && s.open == ROUTE
    ensures Run(StripStep, Tokens(n) + rest, s) == rest
  {
    if n.Element? {
      var inside := Flat(n.kids) + ([End(MartiTag)] + rest);
      assert Tokens(n) + rest == [Start(MartiTag, n.attrs)] + inside;
      SkipForest(n.kids, [End(MartiTag)] + rest, MartiTag, 0, ROUTE + [MartiTag]);
      assert ([End(MartiTag)] + rest)[1..] == rest;
      RunStop(StripStep, Start(MartiTag, n.attrs), inside, s, rest);
    } else {
      RunStop(StripStep, Empty(MartiTag, n.attrs), rest, s, rest);
    }
  }

  lemma LeavesRoute(open: seq<Tag>, tag: Tag)
    requires open < ROUTE && tag != ROUTE[|open|]
    ensures !(open + [tag] <= ROUTE)
  {
    assert (open + [tag])[|open|] == tag;
  }

  lemma {:induction false} DetailStripped(kids: seq<Node>, rest: seq<Token>, s: State)
    requires s.open == ROUTE
    ensures Run(StripStep, Flat(kids) + rest, s) ==
      if First(kids, IsMarti) < |kids| then Flat(RemoveMarti(kids)) + rest else Flat(kids) + Run(StripStep, rest, s)
  {
    var k := First(kids, IsMarti);
    forall i | 0 <= i < k
      ensures Stays(StripStep, s, kids[i])
    {
      forall more {
        NodeStays(kids[i], more, s);
      }
    }
    if k < |kids| {
      forall more {
        MartiSkipped(kids[k], more, s);
      }
      assert Becomes(StripStep, s, kids[k], Flat([])) by {
        assert forall more: seq<Token> :: Flat([]) + more == more;
      }
      EndsAt(StripStep, s, kids, k, [], rest);
      assert Replace(kids, k, []) == RemoveMarti(kids);
    } else {
      AllStay(StripStep, s, kids, rest);
    }
  }

  const IN_EVENT := State([EventTag], false)

  lemma {:induction false} ChildStripped(n: Node, rest: seq<Token>)
    ensures Run(StripStep, Tokens(n) + rest, IN_EVENT) ==
      if Routed(n) then Tokens(n.(kids := RemoveMarti(n.kids))) + rest else Tokens(n) + Run(StripStep, rest, IN_EVENT)
  {
    if n.Element? && n.tag == DetailTag {
      var inside, next := [End(DetailTag)] + rest, Push(IN_EVENT, DetailTag);
      DetailStripped(n.kids, inside, next);
      Innermost([EventTag], DetailTag);
      if Routed(n) {
        ElementRuns(StripStep, n, rest, IN_EVENT, next);
        var stripped := Flat(RemoveMarti(n.kids));
        Enclosed([Start(n.tag, n.attrs)], stripped, [End(n.tag)], rest);
      } else {
        ElementPasses(StripStep, n, rest, IN_EVENT, next);
      }
    } else {
      if n.Element? {
        LeavesRoute([EventTag], n.tag);
      }
      NodeStays(n, rest, IN_EVENT);
    }
  }

  lemma {:induction false} KidsStripped(kids: seq<Node>, rest: seq<Token>)
    ensures Run(StripStep, Flat(kids) + rest, IN_EVENT) ==
      if First(kids, Routed) < |kids| then Flat(StripKids(kids)) + rest
      else Flat(kids) + Run(StripStep, rest, IN_EVENT)
  {
    var k := First(kids, Routed);
    forall i | 0 <= i < k
      ensures Stays(StripStep, IN_EVENT, kids[i])
    {
      forall more {
        ChildStripped(kids[i], more);
      }
    }
    if k < |kids| {
      var stripped := kids[k].(kids := RemoveMarti(kids[k].kids));
      forall more {
        ChildStripped(kids[k], more);
      }
      FlatOne(stripped);
      EndsAt(StripStep, IN_EVENT, kids, k, [stripped], rest);
      assert Replace(kids, k, [stripped]) == StripKids(kids);
    } else {
      AllStay(StripStep, IN_EVENT, kids, rest);
    }
  }

  lemma {:induction false} OthersPass(step: Step, texts: seq<Name>, rest: seq<Token>)
    requires forall text, more :: step(INITIAL, Other(text), more) == Pass(INITIAL)
    ensures Run(step, Others(texts) + rest, INITIAL) == Others(texts) + Run(step, rest, INITIAL)
  {
    if texts == [] {
      assert Others(texts) + rest == rest;
    } else {
      OthersPass(step, texts[1..], rest);
      assert Others(texts) + rest == [Other(texts[0])] + (Others(texts[1..]) + rest);
      RunPass(step, Other(texts[0]), Others(texts[1..]) + rest, INITIAL, INITIAL);
    }
  }

  lemma {:induction false} OthersEnd(step: Step, texts: seq<Name>)
    requires forall text, more :: step(INITIAL, Other(text), more) == Pass(INITIAL)
    ensures Run(step, Others(texts), INITIAL) == Others(texts)
  {
    OthersPass(step, texts, []);
    assert Others(texts) + [] == Others(texts);
  }

  /** Both loops leave what surrounds the root alone. */
  lemma {:induction false} AroundRoot(step: Step, d: Document, root: Node)
    requires forall text, more :: step(INITIAL, Other(text), more) == Pass(INITIAL)
    requires Run(step, Others(d.after), INITIAL) == Others(d.after) ==>
      Run(step, Tokens(d.root) + Others(d.after), INITIAL) == Tokens(root) + Others(d.after)
    ensures Run(step, Printed(d), INITIAL) == Printed(d.(root := root))
  {
    var after := Others(d.after);
    OthersEnd(step, d.after);
    OthersPass(step, d.before, Tokens(d.root) + after);
    Group(Others(d.before), Tokens(d.root), after);
    Group(Others(d.before), Tokens(root), after);
  }

  lemma {:induction false} RootStripped(d: Document, after: seq<Token>)
    requires Run(StripStep, after, INITIAL) == after
    ensures Run(StripStep, Tokens(d.root) + after, INITIAL) == Tokens(Strip(d).root) + after
  {
    var root := d.root;
    if root.Element? && root.tag == EventTag {
      var inside := [End(EventTag)] + after;
      assert Push(INITIAL, EventTag) == IN_EVENT;
      KidsStripped(root.kids, inside);
      if First(root.kids, Routed) < |root.kids| {
        ElementRuns(StripStep, root, after, INITIAL, IN_EVENT);
        var stripped := Flat(StripKids(root.kids));
        Enclosed([Start(root.tag, root.attrs)], stripped, [End(root.tag)], after);
      } else {
        ElementPasses(StripStep, root, after, INITIAL, IN_EVENT);
      }
    } else {
      if root.Element? {
        LeavesRoute([], root.tag);
      }
      NodeStays(root, after, INITIAL);
    }
  }

  /** On every document the loop removes exactly the first `/event/detail/marti`. */
  lemma {:induction false} StripIs(d: Document)
    ensures Run(StripStep, Printed(d), INITIAL) == Printed(Strip(d))
  {
    if Run(StripStep, Others(d.after), INITIAL) == Others(d.after) {
      RootStripped(d, Others(d.after));
    }
    AroundRoot(StripStep, d, Strip(d).root);
  }

  // ----- Adding -----

  /** Inside a child of the root: nothing in here is touched. */
  ghost function Within(): State -> bool {
    (s: State) => |s.open| >= 2
  }

  lemma WithinPassive(source: seq<Token>)
    ensures Passive(Adding(source), Within())
  {
    forall s: State, tag: Tag, rest: seq<Token> | Within()(s)
      ensures Adding(source)(Push(s, tag), End(tag), rest) == Pass(s)
    {
      Innermost(s.open, tag);
    }
  }

  ghost function In(root: Tag): State {
    State([root], false)
  }

  lemma {:induction false} ChildStays(n: Node, rest: seq<Token>, source: seq<Token>, root: Tag)
    requires !IsDetail(n)
    ensures Run(Adding(source), Tokens(n) + rest, In(root)) == Tokens(n) + Run(Adding(source), rest, In(root))
  {
    match n {
      case Text(t) => RunPass(Adding(source), Other(t), rest, In(root), In(root));
      case SelfClosed(tag, attrs) => RunPass(Adding(source), Empty(tag, attrs), rest, In(root), In(root));
      case Element(tag, attrs, kids) =>
        WithinPassive(source);
        ForestPasses(Adding(source), Within(), kids, [End(tag)] + rest, Push(In(root), tag));
        Innermost([root], tag);
        ElementPasses(Adding(source), n, rest, In(root), Push(In(root), tag));
    }
  }

  lemma {:induction false} DetailExtended(n: Node, rest: seq<Token>, source: Node, root: Tag)
    requires IsDetail(n)
    ensures Run(Adding(Tokens(source)), Tokens(n) + rest, In(root)) == Tokens(Extended(n, source)) + rest
  {
    var add := Adding(Tokens(source));
    if n.Element? {
      var inside, next := [End(DetailTag)] + rest, State([root] + [DetailTag], true);
      WithinPassive(Tokens(source));
      ElementRuns(add, n, rest, In(root), next);
      ForestPasses(add, Within(), n.kids, inside, next);
      Innermost([root], DetailTag);
      RunStop(add, End(DetailTag), rest, next, Tokens(source) + inside);
      FlatAppend(n.kids, source);
      Enclosed([Start(n.tag, n.attrs)], Flat(n.kids) + Tokens(source), [End(n.tag)], rest);
      Group(Flat(n.kids), Tokens(source), inside);
    } else {
      RunStop(add, Empty(DetailTag, n.attrs), rest, In(root), NewDetail(Tokens(source)) + rest);
      FlatOne(source);
    }
  }

  lemma {:induction false} FlatAppend(nodes: seq<Node>, n: Node)
    ensures Flat(nodes + [n]) == Flat(nodes) + Tokens(n)
  {
    FlatSplit(nodes + [n], |nodes|);
    assert (nodes + [n])[..|nodes|] == nodes && (nodes + [n])[|nodes|..] == [n];
    FlatOne(n);
  }

  lemma {:induction false} ChildAlwaysStays(n: Node, source: seq<Token>, root: Tag)
    requires !IsDetail(n)
    ensures Stays(Adding(source), In(root), n)
  {
    forall rest {
      ChildStays(n, rest, source, root);
    }
  }

  lemma {:induction false} DetailBecomes(n: Node, source: Node, root: Tag)
    requires IsDetail(n)
    ensures Becomes(Adding(Tokens(source)), In(root), n, Flat([Extended(n, source)]))
  {
    FlatOne(Extended(n, source));
    forall rest {
      DetailExtended(n, rest, source, root);
    }
  }

  lemma {:induction false} KidsExtended(kids: seq<Node>, rest: seq<Token>, source: Node, root: Tag)
    ensures Run(Adding(Tokens(source)), Flat(kids) + rest, In(root)) ==
      if First(kids, IsDetail) < |kids| then Flat(AddToKids(kids, source, false)) + rest
      else Flat(kids) + Run(Adding(Tokens(source)), rest, In(root))
  {
    var add, k := Adding(Tokens(source)), First(kids, IsDetail);
    forall i | 0 <= i < k
      ensures Stays(add, In(root), kids[i])
    {
      ChildAlwaysStays(kids[i], Tokens(source), root);
    }
    if k < |kids| {
      DetailBecomes(kids[k], source, root);
      EndsAt(add, In(root), kids, k, [Extended(kids[k], source)], rest);
      assert Replace(kids, k, [Extended(kids[k], source)]) == AddToKids(kids, source, false);
    } else {
      AllStay(add, In(root), kids, rest);
    }
  }

  lemma {:induction false} DetailCreated(root: Node, after: seq<Token>, source: Node)
    requires root.Element? && root.tag == EventTag && First(root.kids, IsDetail) == |root.kids|
    ensures Run(Adding(Tokens(source)), Tokens(root) + after, INITIAL) ==
            Tokens(root.(kids := AddToKids(root.kids, source, true))) + after
  {
    var add, inside := Adding(Tokens(source)), [End(EventTag)] + after;
    assert [] + [EventTag] == [EventTag];
    ElementRuns(add, root, after, INITIAL, In(EventTag));
    KidsExtended(root.kids, inside, source, EventTag);
    var made := NewDetail(Tokens(source));
    RunStop(add, End(EventTag), after, In(EventTag), made + inside);
    FlatAppend(root.kids, Element(DetailTag, [], [source]));
    FlatOne(source);
    Enclosed([Start(root.tag, root.attrs)], Flat(root.kids) + made, [End(root.tag)], after);
    Group(Flat(root.kids), made, inside);
  }

  lemma {:induction false} RootDetailExtended(root: Node, after: seq<Token>, source: Node)
    requires root.Element? && First(root.kids, IsDetail) < |root.kids|
    ensures Run(Adding(Tokens(source)), Tokens(root) + after, INITIAL) ==
            Tokens(root.(kids := AddToKids(root.kids, source, false))) + after
  {
    var inside := [End(root.tag)] + after;
    assert [] + [root.tag] == [root.tag];
    ElementRuns(Adding(Tokens(source)), root, after, INITIAL, In(root.tag));
    KidsExtended(root.kids, inside, source, root.tag);
    var extended := Flat(AddToKids(root.kids, source, false));
    Enclosed([Start(root.tag, root.attrs)], extended, [End(root.tag)], after);
  }

  lemma {:induction false} OtherRootStays(root: Node, after: seq<Token>, source: Node)
    requires root.Element? ==> root.tag != EventTag && First(root.kids, IsDetail) == |root.kids|
    ensures Run(Adding(Tokens(source)), Tokens(root) + after, INITIAL) ==
            Tokens(root) + Run(Adding(Tokens(source)), after, INITIAL)
  {
    var add := Adding(Tokens(source));
    match root {
      case Text(t) => RunPass(add, Other(t), after, INITIAL, INITIAL);
      case SelfClosed(tag, attrs) => RunPass(add, Empty(tag, attrs), after, INITIAL, INITIAL);
      case Element(tag, attrs, kids) =>
        assert [] + [tag] == [tag];
        KidsExtended(kids, [End(tag)] + after, source, tag);
        ElementPasses(add, root, after, INITIAL, In(tag));
    }
  }

  lemma {:induction false} RootExtended(d: Document, after: seq<Token>, source: Node)
    requires Run(Adding(Tokens(source)), after, INITIAL) == after
    ensures Run(Adding(Tokens(source)), Tokens(d.root) + after, INITIAL) == Tokens(Add(d, source).root) + after
  {
    if d.root.Element? && First(d.root.kids, IsDetail) < |d.root.kids| {
      RootDetailExtended(d.root, after, source);
    } else if d.root.Element? && d.root.tag == EventTag {
      DetailCreated(d.root, after, source);
    } else {
      OtherRootStays(d.root, after, source);
    }
  }

  /** On every document the loop appends the source to the first `detail` of the root, or to a
      new one. */
  lemma {:induction false} AddIs(d: Document, source: Node)
    ensures Run(Adding(Tokens(source)), Printed(d), INITIAL) == Printed(Add(d, source))
  {
    if Run(Adding(Tokens(source)), Others(d.after), INITIAL) == Others(d.after) {
      RootExtended(d, Others(d.after), source);
    }
    AroundRoot(Adding(Tokens(source)), d, Add(d, source).root);
  }
}
