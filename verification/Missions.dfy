/**
 The mission store's state and its reducer: missions with their contents, the store-wide
 change log, and the layers of each mission. Every mutation is one of the events below.
 */
module Missions {
  import opened Common
  import opened LayerOrder
  import opened EventLogs

  const I64_MIN := -0x8000_0000_0000_0000
  const I64_MAX := 0x7fff_ffff_ffff_ffff

  type Millis = t: int | I64_MIN <= t <= I64_MAX witness 0

  datatype Content = ByHash(hash: Name) | ByUid(uid: Name)

  datatype ContentAdd = ContentAdd(content: Content, timestamp: Millis, creator: Name)

  /** `contents` holds each item once, with its latest add, in the order of those adds. */
  datatype Mission = Mission(guid: Name, name: Name, creator: Name, createTime: Millis,
                             contents: seq<ContentAdd>, deleted: bool)

  datatype ChangeType =
    CreateMission | DeleteMission | AddContent | RemoveContent | CreateDataFeed | DeleteDataFeed

  datatype ExternalRecord = ExternalRecord(id: Name, name: Name, tool: Name, notes: Name)

  datatype ExternalChange = ExternalChange(uid: Name, name: Name, tool: Name,
                                           token: Option<Name>, notes: Option<Name>)

  /** A row of the change log. A mission that is gone leaves its name empty (`None`). */
  datatype Change = Change(id: nat, kind: ChangeType, guid: Name, missionName: Option<Name>,
                           content: Option<Content>, creator: Name,
                           timestamp: Millis, serverTime: Millis,
                           external: Option<ExternalChange>, mapLayer: Option<Name>, feed: Option<Name>)

  datatype Event =
    | FeedAdded(guid: Name, feed: Name, creator: Name, changeId: nat, at: Millis)
    | FeedRemoved(guid: Name, feed: Name, creator: Name, changeId: nat, at: Millis)
    | MapLayerSaved(guid: Name, mapLayer: Name, at: Millis, creator: Name, savedAs: Option<nat>)
    | ExternalSet(guid: Name, record: ExternalRecord, creator: Name, at: Millis, changeId: nat)
    | ExternalChanged(guid: Name, change: ExternalChange, remove: bool, creator: Name, at: Millis, changeId: nat)
    | Created(mission: Mission, changeId: nat)
    | Deleted(guid: Name, creator: Name, at: Millis, changeId: nat)
    | ContentAdded(guid: Name, content: Content, creator: Name, at: Millis, changeId: nat, server: Option<Millis>)
    | ContentRemoved(guid: Name, content: Content, creator: Name, at: Millis, changeId: nat, server: Option<Millis>)
    | LayerSaved(guid: Name, layer: Layer)
    | LayerNamed(guid: Name, uid: Name, name: Name)
    | LayerParentSet(guid: Name, uid: Name, parent: Option<Name>)
    | LayerAfterSet(guid: Name, uid: Name, after: Option<Name>)
    | LayerDeleted(guid: Name, uid: Name)

  datatype State = State(missions: map<Name, Mission>, changes: seq<Change>, nextChangeId: nat,
                         layers: map<Name, seq<Layer>>,
                         external: map<Name, ExternalRecord>, mapLayers: set<Name>, feeds: set<Name>)

  const EMPTY := State(map[], [], 0, map[], map[], {}, {})

  function Max(a: int, b: int): int {
    if a > b then a else b
  }

  // ----- The reducer -----

  function MissionName(s: State, guid: Name): Option<Name> {
    if guid in s.missions then Some(s.missions[guid].name) else None
  }

  function PushChange(s: State, c: Change): State {
    s.(changes := s.changes + [c], nextChangeId := Max(s.nextChangeId, c.id + 1))
  }

  /** `retain(|c| c.content != content)`. */
  function Without(contents: seq<ContentAdd>, content: Content): seq<ContentAdd> {
    if contents == [] then []
    else
      var rest := Without(contents[..|contents| - 1], content);
      var last := contents[|contents| - 1];
      if last.content == content then rest else rest + [last]
  }

  function SetContents(s: State, guid: Name, contents: seq<ContentAdd>): State
    requires guid in s.missions
  {
    s.(missions := s.missions[guid := s.missions[guid].(contents := contents)])
  }

  function FeedChange(s: State, kind: ChangeType, guid: Name, feed: Name, creator: Name, id: nat, at: Millis): Change {
    Change(id, kind, guid, MissionName(s, guid), None, creator, at, at, None, None, Some(feed))
  }

  function ExternalRow(s: State, kind: ChangeType, guid: Name, ext: ExternalChange, creator: Name, id: nat, at: Millis): Change {
    Change(id, kind, guid, MissionName(s, guid), None, creator, at, at, Some(ext), None, None)
  }

  function ContentRow(s: State, kind: ChangeType, guid: Name, content: Content, creator: Name,
                      id: nat, at: Millis, server: Option<Millis>): Change {
    Change(id, kind, guid, MissionName(s, guid), Some(content), creator, at,
           if server.Some? then server.value else at, None, None, None)
  }

  function ApplyFeedAndData(s: State, e: Event): State {
    match e
    case FeedAdded(guid, feed, creator, id, at) =>
      PushChange(s.(feeds := s.feeds + {feed}), FeedChange(s, CreateDataFeed, guid, feed, creator, id, at))
    case FeedRemoved(guid, feed, creator, id, at) =>
      PushChange(s.(feeds := s.feeds - {feed}), FeedChange(s, DeleteDataFeed, guid, feed, creator, id, at))
    case MapLayerSaved(guid, uid, at, creator, savedAs) =>
      var t := s.(mapLayers := s.mapLayers + {uid});
      if savedAs.None? then t
      else PushChange(t, Change(savedAs.value, AddContent, guid, MissionName(s, guid), None, creator, at, at,
                                None, Some(uid), None))
    case ExternalSet(guid, r, creator, at, id) =>
      PushChange(s.(external := s.external[r.id := r]),
                 ExternalRow(s, AddContent, guid, ExternalChange(r.id, r.name, r.tool, None, Some(r.notes)), creator, id, at))
    case ExternalChanged(guid, change, remove, creator, at, id) =>
      PushChange(if remove then s.(external := s.external - {change.uid}) else s,
                 ExternalRow(s, if remove then RemoveContent else AddContent, guid, change, creator, id, at))
    case _ => s
  }

  function ApplyMission(s: State, e: Event): State {
    match e
    case Created(m, id) =>
      var t := PushChange(s, Change(id, CreateMission, m.guid, Some(m.name), None, m.creator, m.createTime, m.createTime,
                                    None, None, None));
      t.(missions := t.missions[m.guid := m])
    case Deleted(guid, creator, at, id) =>
      if guid !in s.missions then s.(nextChangeId := Max(s.nextChangeId, id + 1))
      else PushChange(s.(missions := s.missions[guid := s.missions[guid].(deleted := true)]),
                      Change(id, DeleteMission, guid, MissionName(s, guid), None, creator, at, at, None, None, None))
    case ContentAdded(guid, content, creator, at, id, server) =>
      if guid !in s.missions then s.(nextChangeId := Max(s.nextChangeId, id + 1))
      else
        var kept := Without(s.missions[guid].contents, content);
        PushChange(SetContents(s, guid, kept + [ContentAdd(content, at, creator)]),
                   ContentRow(s, AddContent, guid, content, creator, id, at, server))
    case ContentRemoved(guid, content, creator, at, id, server) =>
      if guid !in s.missions then s.(nextChangeId := Max(s.nextChangeId, id + 1))
      else
        PushChange(SetContents(s, guid, Without(s.missions[guid].contents, content)),
                   ContentRow(s, RemoveContent, guid, content, creator, id, at, server))
    case _ => s
  }

  // Layer events work on one mission's vector of layers.

  /** `layer_mut`: changes the first layer with this uid, if there is one. */
  function SetFirst(ls: seq<Layer>, uid: Name, f: Layer -> Layer): seq<Layer> {
    if ls == [] then []
    else if ls[0].uid == uid then [f(ls[0])] + ls[1..]
    else [ls[0]] + SetFirst(ls[1..], uid, f)
  }

  function SetName(ls: seq<Layer>, uid: Name, name: Name): seq<Layer> {
    SetFirst(ls, uid, (l: Layer) => l.(name := Some(name)))
  }

  function SetAfter(ls: seq<Layer>, uid: Name, after: Option<Name>): seq<Layer> {
    SetFirst(ls, uid, (l: Layer) => l.(after := after))
  }

  /** Setting the parent also clears the predecessor. */
  function SetParent(ls: seq<Layer>, uid: Name, parent: Option<Name>): seq<Layer> {
    SetFirst(ls, uid, (l: Layer) => l.(parent := parent, after := None))
  }

  function Drop(ls: seq<Layer>, uid: Name): seq<Layer> {
    if ls == [] then []
    else if ls[0].uid == uid then Drop(ls[1..], uid)
    else [ls[0]] + Drop(ls[1..], uid)
  }

  function LayersOf(s: State, guid: Name): seq<Layer> {
    if guid in s.layers then s.layers[guid] else []
  }

  predicate IsLayerEvent(e: Event) {
    e.LayerSaved? || e.LayerNamed? || e.LayerParentSet? || e.LayerAfterSet? || e.LayerDeleted?
  }

  function ApplyToLayers(ls: seq<Layer>, e: Event): seq<Layer>
    requires IsLayerEvent(e)
  {
    match e
    case LayerSaved(_, layer) => ls + [layer]
    case LayerNamed(_, uid, name) => SetName(ls, uid, name)
    case LayerParentSet(_, uid, parent) => SetParent(ls, uid, parent)
    case LayerAfterSet(_, uid, after) => SetAfter(ls, uid, after)
    case LayerDeleted(_, uid) => Drop(ls, uid)
  }

  function Apply(s: State, e: Event): State {
    if IsLayerEvent(e) then
      if e.LayerSaved? || e.guid in s.layers
      then s.(layers := s.layers[e.guid := ApplyToLayers(LayersOf(s, e.guid), e)])
      else s
    else if e.Created? || e.Deleted? || e.ContentAdded? || e.ContentRemoved? then ApplyMission(s, e)
    else ApplyFeedAndData(s, e)
  }

  ghost function StateAfter(events: seq<Event>): State {
    Fold(Apply, EMPTY, events)
  }
}
