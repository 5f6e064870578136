/**
 The mission store: its state, the durable log, and the operations that check, append and
 apply. An append can fail between the events of one operation; the state then stands where
 the log does.
 */
module MissionStores {
  import opened Common
  import opened EventLogs
  import opened LayerOrder
  import LayerChains
  import LayerFailures
  import LayerSafety
  import LayerTrees
  import opened Missions
  import opened ChangeLog
  import opened ChangeViews

  datatype Outcome = Done | NotFound | LogFailed

  /** Only the layers of one mission differ, and they are `ls`. */
  ghost predicate OnlyLayers(s: State, t: State, guid: Name, ls: seq<Layer>) {
    && t == s.(layers := t.layers)
    && LayersOf(t, guid) == ls
    && forall g :: g != guid ==> LayersOf(t, g) == LayersOf(s, g)
  }

  lemma LayerEventOnlyLayers(s: State, e: Event)
    requires IsLayerEvent(e)
    ensures OnlyLayers(s, Apply(s, e), e.guid, ApplyToLayers(LayersOf(s, e.guid), e))
  {
  }

  lemma OnlyLayersTrans(s: State, t: State, u: State, guid: Name)
    requires OnlyLayers(s, t, guid, LayersOf(t, guid)) && OnlyLayers(t, u, guid, LayersOf(u, guid))
    ensures OnlyLayers(s, u, guid, LayersOf(u, guid))
  {
  }

  lemma SetAftersNext(ls: seq<Layer>, targets: seq<Name>, k: nat, after: Option<Name>)
    requires k < |targets|
    ensures LayerChains.SetAfters(ls, targets[..k + 1], after) ==
            SetAfter(LayerChains.SetAfters(ls, targets[..k], after), targets[k], after)
  {
    assert targets[..k + 1][..k] == targets[..k];
  }

  lemma AddedIsThere(contents: seq<ContentAdd>, a: ContentAdd)
    ensures a in Without(contents, a.content) + [a]
  {
  }

  lemma {:induction false} RemovedIsGone(contents: seq<ContentAdd>, x: Content)
    ensures forall a :: a in Without(contents, x) ==> a.content != x
  {
    if contents != [] {
      RemovedIsGone(contents[..|contents| - 1], x);
    }
  }

  class MissionStore {
    var state: State
    const log: EventLog<Event>

    /** The state is the fold of the durable log, and the log is one the store writes. */
    ghost predicate Valid()
      reads this, log
    {
      state == StateAfter(Events(log.lines)) && Legit(Events(log.lines))
    }

    constructor (state: State, log: EventLog<Event>)
      ensures this.state == state && this.log == log
    {
      this.state := state;
      this.log := log;
    }

    /** A restart: the state is rebuilt by replaying the file, and is the file's exactly if the
        file could be read or its events lead back to an empty store. */
    static method LoadOrCreate(file: LogFile<Event>) returns (store: Result<MissionStore, LogError>)
      ensures store.Ok? <==> Garbage !in LinesSeen(file)
      ensures store.Ok? ==>
        && fresh(store.value) && fresh(store.value.log)
        && store.value.log.lines == LinesIn(file)
        && store.value.state == StateAfter(Events(LinesSeen(file)))
        && (store.value.state == StateAfter(Events(store.value.log.lines)) <==>
            !file.Unreadable? || StateAfter(Events(file.hidden)) == EMPTY)
        && (!file.Unreadable? && Legit(Events(store.value.log.lines)) ==> store.value.Valid())
    {
      var log, state := EventLog.OpenAndReplay(file, EMPTY, Apply);
      if log.Err? { return Err(log.error); }
      var loaded := new MissionStore(state, log.value);
      store := Ok(loaded);
    }

    /** Appends, and applies only what was appended. */
    method Record(e: Event) returns (ok: bool)
      requires Valid() && Enabled(state, e)
      modifies this`state, log
      ensures Valid()
      ensures ok ==> state == Apply(old(state), e) && log.lines == old(log.lines) + [EventLogs.Record(e)]
      ensures !ok ==> state == old(state) && log.lines == old(log.lines)
    {
      ghost var events := Events(log.lines);
      ok := log.Append(e);
      if ok {
        EventsAppend(old(log.lines), e);
        LegitAppend(events, e);
        state := Apply(state, e);
      }
    }

    // ----- Missions and their contents -----

    method Create(guid: Name, name: Name, creator: Name, now: Millis) returns (outcome: Outcome)
      requires Valid() && guid !in state.missions
      modifies this`state, log
      ensures Valid()
      ensures outcome == Done || outcome == LogFailed
      ensures outcome == Done ==>
        && state == Apply(old(state), Created(Mission(guid, name, creator, now, [], false), old(state).nextChangeId))
        && state.missions == old(state).missions[guid := Mission(guid, name, creator, now, [], false)]
      ensures outcome != Done ==> state == old(state)
    {
      var ok := Record(Created(Mission(guid, name, creator, now, [], false), state.nextChangeId));
      outcome := if ok then Done else LogFailed;
    }

    method Delete(guid: Name, creator: Name, now: Millis) returns (outcome: Outcome)
      requires Valid()
      modifies this`state, log
      ensures Valid()
      ensures outcome == NotFound <==> guid !in old(state).missions
      ensures outcome == Done ==>
        && state == Apply(old(state), Deleted(guid, creator, now, old(state).nextChangeId))
        && state.missions == old(state).missions[guid := old(state).missions[guid].(deleted := true)]
      ensures outcome != Done ==> state == old(state)
    {
      if guid !in state.missions { return NotFound; }
      var ok := Record(Deleted(guid, creator, now, state.nextChangeId));
      outcome := if ok then Done else LogFailed;
    }

    method AddContentAt(guid: Name, content: Content, creator: Name, at: Millis, server: Option<Millis>)
      returns (outcome: Outcome)
      requires Valid()
      modifies this`state, log
      ensures Valid()
      ensures outcome == NotFound <==> guid !in old(state).missions
      ensures outcome == Done ==>
        && state == Apply(old(state), ContentAdded(guid, content, creator, at, old(state).nextChangeId, server))
        && guid in state.missions && Has(state.missions[guid], content)
        && state.missions ==
           old(state).missions[guid := old(state).missions[guid].(contents := state.missions[guid].contents)]
      ensures outcome != Done ==> state == old(state)
    {
      if guid !in state.missions { return NotFound; }
      var ok := Record(ContentAdded(guid, content, creator, at, state.nextChangeId, server));
      AddedIsThere(old(state).missions[guid].contents, ContentAdd(content, at, creator));
      outcome := if ok then Done else LogFailed;
    }

    method RemoveContentAt(guid: Name, content: Content, creator: Name, at: Millis, server: Option<Millis>)
      returns (outcome: Outcome)
      requires Valid()
      modifies this`state, log
      ensures Valid()
      ensures outcome == NotFound <==> guid !in old(state).missions
      ensures outcome == Done ==>
        && state == Apply(old(state), ContentRemoved(guid, content, creator, at, old(state).nextChangeId, server))
        && guid in state.missions && !Has(state.missions[guid], content)
        && state.missions ==
           old(state).missions[guid := old(state).missions[guid].(contents := state.missions[guid].contents)]
      ensures outcome != Done ==> state == old(state)
    {
      if guid !in state.missions { return NotFound; }
      var ok := Record(ContentRemoved(guid, content, creator, at, state.nextChangeId, server));
      RemovedIsGone(old(state).missions[guid].contents, content);
      outcome := if ok then Done else LogFailed;
    }

    /** The mission's changes in the window, newest first; an unknown mission is an error. */
    method Changes(q: Query, squashed: bool) returns (rows: Option<seq<Change>>)
      requires Valid()
      ensures rows.Some? <==> q.guid in state.missions
      ensures rows.Some? && squashed ==> IsSquashedView(state, q, rows.value)
      ensures rows.Some? && !squashed ==> IsFullView(state, q, rows.value)
    {
      if q.guid !in state.missions { return None; }
      ReachableInv(Events(log.lines));
      var found;
      if squashed {
        found := SquashedView(state, q);
      } else {
        found := FullView(state, q);
      }
      rows := Some(found);
    }

    // ----- Layers -----

    method RecordLayer(e: Event) returns (ok: bool)
      requires Valid() && IsLayerEvent(e)
      modifies this`state, log
      ensures Valid()
      ensures ok ==> OnlyLayers(old(state), state, e.guid, ApplyToLayers(LayersOf(old(state), e.guid), e))
      ensures !ok ==> state == old(state)
    {
      LayerEventOnlyLayers(state, e);
      ok := Record(e);
    }

    method FixupAfter(guid: Name, uid: Option<Name>, parent: Option<Name>, after: Option<Name>) returns (ok: bool)
      requires Valid()
      modifies this`state, log
      ensures Valid()
      ensures ok ==> OnlyLayers(old(state), state, guid,
                                LayerChains.Fixup(LayersOf(old(state), guid), uid, parent, after))
      ensures !ok && LayerFailures.AtMostOne(LayerChains.Targets(LayersOf(old(state), guid), uid, parent, after)) ==>
        state == old(state)
      ensures OnlyLayers(old(state), state, guid, LayersOf(state, guid))
    {
      ghost var before := LayersOf(state, guid);
      var targets := LayerChains.Targets(LayersOf(state, guid), uid, parent, after);
      for k := 0 to |targets|
        invariant Valid() && (k == 0 ==> state == old(state))
        invariant OnlyLayers(old(state), state, guid, LayerChains.SetAfters(before, targets[..k], uid))
      {
        ghost var earlier := state;
        SetAftersNext(before, targets, k, uid);
        ok := RecordLayer(LayerAfterSet(guid, targets[k], uid));
        if !ok { return; }
        OnlyLayersTrans(old(state), earlier, state, guid);
      }
      assert targets[..|targets|] == targets;
      ok := true;
    }

    /** On success the mission's layers are those with the layer added. A failure leaves a chain
        whole exactly if it left the layers as they were, and cannot break it if the layer goes last. */
    method AddLayer(guid: Name, layer: Layer) returns (outcome: Outcome)
      requires Valid()
      modifies this`state, log
      ensures Valid()
      ensures outcome == NotFound <==> guid !in old(state).missions
      ensures outcome == Done ==>
        OnlyLayers(old(state), state, guid, LayerChains.AddLayer(LayersOf(old(state), guid), layer))
      ensures outcome == LogFailed && LayerChains.Chained(LayersOf(old(state), guid)) ==>
        && LayerFailures.LeftByAdd(LayersOf(old(state), guid), layer, LayersOf(state, guid))
        && (LayerChains.Chained(LayersOf(state, guid)) <==> LayersOf(state, guid) == LayersOf(old(state), guid))
      ensures outcome == LogFailed && LayerChains.Chained(LayersOf(old(state), guid))
              && LayerChains.CanAdd(LayersOf(old(state), guid), layer)
              && LayerSafety.AddSafe(LayersOf(old(state), guid), layer) ==>
        LayerChains.Chained(LayersOf(state, guid))
      ensures OnlyLayers(old(state), state, guid, LayersOf(state, guid))
    {
      if guid !in state.missions { return NotFound; }
      ghost var ls := LayersOf(state, guid);
      if LayerChains.Chained(ls) {
        LayerFailures.ChainHasOneTarget(ls, Some(layer.uid), layer.parent, layer.after);
        LayerFailures.FixupKeepsChainIff(ls, Some(layer.uid), layer.parent, layer.after);
        if LayerChains.CanAdd(ls, layer) {
          LayerSafety.PermittedAddSafeIff(ls, layer);
        }
      }
      var ok := FixupAfter(guid, Some(layer.uid), layer.parent, layer.after);
      if !ok { return LogFailed; }
      ok := RecordLayer(LayerSaved(guid, layer));
      if !ok { return LogFailed; }
      outcome := Done;
    }

    method RenameLayer(guid: Name, uid: Name, name: Name) returns (ok: bool)
      requires Valid()
      modifies this`state, log
      ensures Valid()
      ensures ok ==> OnlyLayers(old(state), state, guid, SetName(LayersOf(old(state), guid), uid, name))
      ensures ok && Find(LayersOf(old(state), guid), uid).Some? ==>
        Find(LayersOf(state, guid), uid) == Some(Find(LayersOf(old(state), guid), uid).value.(name := Some(name)))
      ensures !ok ==> state == old(state)
    {
      LayerChains.FindRename(LayersOf(state, guid), uid, name, uid);
      ok := RecordLayer(LayerNamed(guid, uid, name));
    }

    /** On success the mission's layers are those with the layer moved. A permitted move that
        fails leaves a chain whole exactly if it changed nothing or everything, and cannot break it if
        nothing follows the layer or its new place. */
    method MoveLayer(guid: Name, uid: Name, parent: Option<Name>, after: Option<Name>) returns (outcome: Outcome)
      requires Valid()
      modifies this`state, log
      ensures Valid()
      ensures outcome == NotFound <==> Find(LayersOf(old(state), guid), uid).None?
      ensures outcome == Done ==>
        OnlyLayers(old(state), state, guid, LayerChains.MoveLayer(LayersOf(old(state), guid), uid, parent, after))
      ensures outcome == LogFailed && LayerChains.Chained(LayersOf(old(state), guid))
              && LayerChains.CanMove(LayersOf(old(state), guid), uid, parent, after) ==>
        && LayerFailures.LeftByMove(LayersOf(old(state), guid), Find(LayersOf(old(state), guid), uid).value,
                                    parent, after, LayersOf(state, guid))
        && (LayerChains.Chained(LayersOf(state, guid)) <==>
            || LayersOf(state, guid) == LayersOf(old(state), guid)
            || LayersOf(state, guid) == LayerChains.MoveLayer(LayersOf(old(state), guid), uid, parent, after))
      ensures outcome == LogFailed && LayerChains.Chained(LayersOf(old(state), guid))
              && LayerChains.CanMove(LayersOf(old(state), guid), uid, parent, after)
              && LayerSafety.MoveSafe(LayersOf(old(state), guid), Find(LayersOf(old(state), guid), uid).value,
                                      parent, after) ==>
        LayerChains.Chained(LayersOf(state, guid))
      ensures OnlyLayers(old(state), state, guid, LayersOf(state, guid))
    {
      ghost var ls := LayersOf(state, guid);
      var found := Find(LayersOf(state, guid), uid);
      if found.None? { return NotFound; }
      var layer := found.value;
      outcome := Relocate(guid, uid, layer, parent, after);
      if outcome == LogFailed && LayerChains.Chained(ls) && LayerChains.CanMove(ls, uid, parent, after) {
        LayerFailures.FailedMoveIff(ls, uid, parent, after, LayersOf(state, guid));
        LayerSafety.MoveSafeIff(ls, uid, parent, after);
      }
    }

    /** The relinking of a move and the storing of the layer's new place. */
    method Relocate(guid: Name, uid: Name, layer: Layer, parent: Option<Name>, after: Option<Name>)
      returns (outcome: Outcome)
      requires Valid() && Find(LayersOf(state, guid), uid) == Some(layer)
      modifies this`state, log
      ensures Valid()
      ensures outcome == Done || outcome == LogFailed
      ensures outcome == Done ==>
        OnlyLayers(old(state), state, guid, LayerChains.MoveLayer(LayersOf(old(state), guid), uid, parent, after))
      ensures outcome == LogFailed && LayerChains.Chained(LayersOf(old(state), guid)) ==>
        LayerFailures.LeftByMove(LayersOf(old(state), guid), layer, parent, after, LayersOf(state, guid))
      ensures OnlyLayers(old(state), state, guid, LayersOf(state, guid))
    {
      ghost var ls := LayersOf(state, guid);
      if LayerChains.Chained(ls) {
        LayerFailures.NotAfterItself(ls, uid);
        LayerFailures.ChainHasOneTarget(ls, layer.after, layer.parent, Some(uid));
        LayerFailures.RelinkingHasOneTarget(ls, uid, parent, after);
      }
      var ok := FixupAfter(guid, layer.after, layer.parent, Some(uid));
      if !ok { return LogFailed; }
      ok := FixupAfter(guid, Some(uid), parent, after);
      if !ok { return LogFailed; }
      ok := PlaceLayer(guid, uid, layer.parent, parent, after);
      outcome := if ok then Done else LogFailed;
    }

    /** Stores the layer's new place in the layer itself. */
    method PlaceLayer(guid: Name, uid: Name, from: Option<Name>, parent: Option<Name>, after: Option<Name>)
      returns (ok: bool)
      requires Valid()
      modifies this`state, log
      ensures Valid()
      ensures ok ==> OnlyLayers(old(state), state, guid,
                                LayerChains.Placed(LayersOf(old(state), guid), uid, from, parent, after))
      ensures !ok ==>
        || LayersOf(state, guid) == LayersOf(old(state), guid)
        || ((from != parent || from.None?) && LayersOf(state, guid) == SetParent(LayersOf(old(state), guid), uid, parent))
      ensures OnlyLayers(old(state), state, guid, LayersOf(state, guid))
    {
      if from != parent || from.None? {
        ok := RecordLayer(LayerParentSet(guid, uid, parent));
        if !ok { return; }
      }
      var stored := Find(LayersOf(state, guid), uid);
      var current := if stored.Some? then stored.value.parent else None;
      if current == parent {
        ok := RecordLayer(LayerAfterSet(guid, uid, after));
        if !ok { return; }
      }
      ok := true;
    }

    /** Deleting a layer that is not there is no error. A failure leaves a chain whole exactly if
        it left the layers as they were, and cannot break it if the layer is the last of its list. */
    method DeleteLayer(guid: Name, uid: Name) returns (ok: bool)
      requires Valid()
      modifies this`state, log
      ensures Valid()
      ensures ok ==> OnlyLayers(old(state), state, guid, LayerChains.DeleteLayer(LayersOf(old(state), guid), uid))
      ensures !ok && LayerChains.Chained(LayersOf(old(state), guid)) ==>
        && Find(LayersOf(old(state), guid), uid).Some?
        && LayerFailures.LeftByDelete(LayersOf(old(state), guid), Find(LayersOf(old(state), guid), uid).value,
                                      LayersOf(state, guid))
        && (LayerChains.Chained(LayersOf(state, guid)) <==> LayersOf(state, guid) == LayersOf(old(state), guid))
        && (LayerSafety.DeleteSafe(LayersOf(old(state), guid), Find(LayersOf(old(state), guid), uid).value) ==>
              LayerChains.Chained(LayersOf(state, guid)))
      ensures OnlyLayers(old(state), state, guid, LayersOf(state, guid))
    {
      ghost var ls := LayersOf(state, guid);
      var found := Find(LayersOf(state, guid), uid);
      if found.None? { return true; }
      if LayerChains.Chained(ls) {
        LayerFailures.ChainHasOneTarget(ls, found.value.after, found.value.parent, Some(uid));
        LayerFailures.FixupKeepsChainIff(ls, found.value.after, found.value.parent, Some(uid));
        LayerFailures.NotAfterItself(ls, uid);
        LayerSafety.DeleteSafeIff(ls, uid);
      }
      ok := FixupAfter(guid, found.value.after, found.value.parent, Some(uid));
      if !ok { return; }
      ok := RecordLayer(LayerDeleted(guid, uid));
    }

    /** The mission's layer trees, whatever moves did to the parent links. */
    method LayerTreesOf(guid: Name) returns (trees: seq<LayerTrees.Tree>)
      requires DistinctUids(LayersOf(state, guid))
      ensures LayerTrees.InOrder(LayersOf(state, guid), None, trees)
      ensures Distinct(LayerTrees.Flatten(trees))
      ensures forall l :: l in LayerTrees.Flatten(trees) <==> LayerTrees.ReachesTop(LayersOf(state, guid), l)
    {
      trees := LayerTrees.LayerTrees(LayersOf(state, guid));
    }

    /** One layer of the mission with what is below it, if the layer is not on a cycle of parents. */
    method LayerTreeOf(guid: Name, uid: Name) returns (tree: Option<LayerTrees.Tree>)
      requires DistinctUids(LayersOf(state, guid)) && !LayerTrees.OnCycle(LayersOf(state, guid), uid)
      ensures tree.None? <==> Find(LayersOf(state, guid), uid).None?
      ensures tree.Some? ==>
        && tree.value.layer == Find(LayersOf(state, guid), uid).value
        && LayerTrees.InOrder(LayersOf(state, guid), Some(uid), tree.value.children)
        && Distinct(LayerTrees.Flatten(tree.value.children))
        && forall l :: l in LayerTrees.Flatten(tree.value.children) <==>
                       LayerTrees.Below(LayersOf(state, guid), Some(uid), l)
    {
      tree := LayerTrees.LayerTree(LayersOf(state, guid), uid);
    }
  }
}
