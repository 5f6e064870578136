/** What the log of missions says, read off event by event: the missions, their feeds, map layers and
    external data, and the row each event left. */
module MissionLogs {
  import opened Common
  import opened EventLogs
  import opened Missions
  import opened ChangeLog

  // ----- Feeds, external data, map layers -----

  function OnFeed(feed: Name): Event -> bool {
    (e: Event) => (e.FeedAdded? || e.FeedRemoved?) && e.feed == feed
  }

  ghost predicate AddedLast(events: seq<Event>, feed: Name) {
    exists i :: Latest(events, OnFeed(feed), i) && events[i].FeedAdded?
  }

  lemma {:induction false} AddedAppend(events: seq<Event>, e: Event, feed: Name)
    ensures AddedLast(events + [e], feed) <==> if OnFeed(feed)(e) then e.FeedAdded? else AddedLast(events, feed)
  {
    var about := OnFeed(feed);
    LatestMoves(events, e, about);
    if i :| Latest(events, about, i) && events[i].FeedAdded? && !about(e) {
      assert Latest(events + [e], about, i);
    }
    if about(e) {
      assert Latest(events + [e], about, |events|);
    }
  }

  lemma {:induction false} FeedStep(s: State, e: Event, feed: Name)
    ensures feed in Apply(s, e).feeds <==> if OnFeed(feed)(e) then e.FeedAdded? else feed in s.feeds
  {
  }

  /** A feed is there exactly if the latest event about it added it. */
  lemma {:induction false} FeedsReadLog(events: seq<Event>, feed: Name)
    ensures feed in StateAfter(events).feeds <==> AddedLast(events, feed)
  {
    if events != [] {
      var front, e := events[..|events| - 1], events[|events| - 1];
      assert events == front + [e];
      FeedsReadLog(front, feed);
      FeedStep(StateAfter(front), e, feed);
      AddedAppend(front, e, feed);
    }
  }

  lemma {:induction false} LatestMoves(events: seq<Event>, e: Event, about: Event -> bool)
    ensures forall i :: Latest(events + [e], about, i) <==> if about(e) then i == |events| else Latest(events, about, i)
  {
    forall i
      ensures Latest(events + [e], about, i) <==> if about(e) then i == |events| else Latest(events, about, i)
    {
      LatestAppend(events, e, about, i);
    }
  }

  function OnExternal(id: Name): Event -> bool {
    (e: Event) => (e.ExternalSet? && e.record.id == id) || (e.ExternalChanged? && e.remove && e.change.uid == id)
  }

  /** The latest event that sets or removes the record set it to `r`. */
  ghost predicate SetLast(events: seq<Event>, id: Name, r: ExternalRecord) {
    exists i :: Latest(events, OnExternal(id), i) && events[i].ExternalSet? && events[i].record == r
  }

  lemma {:induction false} SetAppend(events: seq<Event>, e: Event, id: Name, r: ExternalRecord)
    ensures SetLast(events + [e], id, r) <==>
            if OnExternal(id)(e) then e.ExternalSet? && e.record == r else SetLast(events, id, r)
  {
    var about := OnExternal(id);
    LatestMoves(events, e, about);
    if i :| Latest(events, about, i) && events[i].ExternalSet? && events[i].record == r && !about(e) {
      assert Latest(events + [e], about, i);
    }
    if about(e) {
      assert Latest(events + [e], about, |events|);
    }
  }

  ghost predicate Stored(s: State, id: Name, r: ExternalRecord) {
    id in s.external && s.external[id] == r
  }

  lemma {:induction false} ExternalStep(s: State, e: Event, id: Name, r: ExternalRecord)
    ensures Stored(Apply(s, e), id, r) <==>
            if OnExternal(id)(e) then e.ExternalSet? && e.record == r else Stored(s, id, r)
  {
  }

  /** An external record is stored, as it is, exactly if the latest event about it set it so. */
  lemma {:induction false} ExternalReadsLog(events: seq<Event>, id: Name, r: ExternalRecord)
    ensures Stored(StateAfter(events), id, r) <==> SetLast(events, id, r)
  {
    if events != [] {
      var front, e := events[..|events| - 1], events[|events| - 1];
      assert events == front + [e];
      ExternalReadsLog(front, id, r);
      ExternalStep(StateAfter(front), e, id, r);
      SetAppend(front, e, id, r);
    }
  }

  ghost predicate SavesAt(events: seq<Event>, uid: Name, i: int) {
    0 <= i < |events| && events[i].MapLayerSaved? && events[i].mapLayer == uid
  }

  /** A map layer is there exactly if it was ever saved. */
  lemma {:induction false} MapLayersReadLog(events: seq<Event>, uid: Name)
    ensures uid in StateAfter(events).mapLayers <==> exists i :: SavesAt(events, uid, i)
  {
    if events != [] {
      var front, e := events[..|events| - 1], events[|events| - 1];
      assert events == front + [e];
      MapLayersReadLog(front, uid);
      FoldAppend(Apply, EMPTY, front, e);
      if i :| SavesAt(front, uid, i) {
        assert SavesAt(events, uid, i);
      }
      if i :| SavesAt(events, uid, i) {
        assert i < |front| ==> SavesAt(front, uid, i);
      }
      if e.MapLayerSaved? && e.mapLayer == uid {
        assert SavesAt(events, uid, |front|);
      }
    }
  }

  // ----- Missions -----

  ghost predicate MadeAt(events: seq<Event>, guid: Name, i: int) {
    0 <= i < |events| && events[i].Created? && events[i].mission.guid == guid
  }

  ghost predicate DeletedAt(events: seq<Event>, guid: Name, i: int) {
    0 <= i < |events| && events[i].Deleted? && events[i].guid == guid
  }

  /** The mission as it was created, and deleted exactly if it ever was. */
  ghost predicate MissionReads(s: State, events: seq<Event>, guid: Name) {
    && (guid in s.missions <==> exists i :: MadeAt(events, guid, i))
    && (guid in s.missions ==>
          && (s.missions[guid].deleted <==> exists i :: DeletedAt(events, guid, i))
          && forall i :: MadeAt(events, guid, i) ==>
               var m := events[i].mission;
               && s.missions[guid].name == m.name && s.missions[guid].creator == m.creator
               && s.missions[guid].createTime == m.createTime && s.missions[guid].guid == guid)
    && (guid !in s.missions ==> !exists i :: DeletedAt(events, guid, i))
  }

  lemma {:induction false} MadeAppend(events: seq<Event>, e: Event, guid: Name)
    ensures forall i :: MadeAt(events + [e], guid, i) <==>
      MadeAt(events, guid, i) || (i == |events| && e.Created? && e.mission.guid == guid)
    ensures forall i :: DeletedAt(events + [e], guid, i) <==>
      DeletedAt(events, guid, i) || (i == |events| && e.Deleted? && e.guid == guid)
    ensures e.Created? && e.mission.guid == guid ==> MadeAt(events + [e], guid, |events|)
    ensures e.Deleted? && e.guid == guid ==> DeletedAt(events + [e], guid, |events|)
  {
  }

  lemma {:induction false} MissionStep(s: State, events: seq<Event>, e: Event, guid: Name)
    requires MissionReads(s, events, guid) && Enabled(s, e)
    ensures MissionReads(Apply(s, e), events + [e], guid)
  {
    var more := events + [e];
    MadeAppend(events, e, guid);
    if i :| MadeAt(events, guid, i) {
      assert MadeAt(more, guid, i);
    }
    if i :| DeletedAt(events, guid, i) {
      assert DeletedAt(more, guid, i);
    }
    forall i | MadeAt(events, guid, i)
      ensures more[i] == events[i]
    {
    }
  }

  lemma {:induction false} MissionsReadLog(events: seq<Event>, guid: Name)
    requires Legit(events)
    ensures MissionReads(StateAfter(events), events, guid)
  {
    if events != [] {
      var front, e := events[..|events| - 1], events[|events| - 1];
      assert events == front + [e];
      MissionsReadLog(front, guid);
      FoldAppend(Apply, EMPTY, front, e);
      MissionStep(StateAfter(front), front, e, guid);
    }
  }

  // ----- Rows -----

  /** The id of the row an event leaves, if it leaves one. */
  function RowId(e: Event): Option<nat> {
    match e
    case FeedAdded(_, _, _, id, _) => Some(id)
    case FeedRemoved(_, _, _, id, _) => Some(id)
    case MapLayerSaved(_, _, _, _, savedAs) => savedAs
    case ExternalSet(_, _, _, _, id) => Some(id)
    case ExternalChanged(_, _, _, _, _, id) => Some(id)
    case Created(_, id) => Some(id)
    case Deleted(_, _, _, id) => Some(id)
    case ContentAdded(_, _, _, _, id, _) => Some(id)
    case ContentRemoved(_, _, _, _, id, _) => Some(id)
    case _ => None
  }

  /** The row tells who did it to which mission, and both its dates. */
  ghost predicate Tells(c: Change, guid: Name, creator: Name, at: Millis, server: Millis) {
    c.guid == guid && c.creator == creator && c.timestamp == at && c.serverTime == server
  }

  /** The row tells of one thing: content, external data, a map layer, a feed, or the mission itself. */
  ghost predicate About(c: Change, content: Option<Content>, external: Option<ExternalChange>,
                        mapLayer: Option<Name>, feed: Option<Name>) {
    c.content == content && c.external == external && c.mapLayer == mapLayer && c.feed == feed
  }

  ghost predicate RowOf(e: Event, c: Change) {
    match e
    case FeedAdded(guid, feed, creator, _, at) =>
      c.kind == CreateDataFeed && Tells(c, guid, creator, at, at) && About(c, None, None, None, Some(feed))
    case FeedRemoved(guid, feed, creator, _, at) =>
      c.kind == DeleteDataFeed && Tells(c, guid, creator, at, at) && About(c, None, None, None, Some(feed))
    case MapLayerSaved(guid, uid, at, creator, _) =>
      c.kind == AddContent && Tells(c, guid, creator, at, at) && About(c, None, None, Some(uid), None)
    case ExternalSet(guid, r, creator, at, _) =>
      && c.kind == AddContent && Tells(c, guid, creator, at, at)
      && About(c, None, Some(ExternalChange(r.id, r.name, r.tool, None, Some(r.notes))), None, None)
    case ExternalChanged(guid, change, remove, creator, at, _) =>
      && c.kind == (if remove then RemoveContent else AddContent)
      && Tells(c, guid, creator, at, at) && About(c, None, Some(change), None, None)
    case Created(m, _) =>
      && c.kind == CreateMission && About(c, None, None, None, None)
      && Tells(c, m.guid, m.creator, m.createTime, m.createTime)
    case Deleted(guid, creator, at, _) =>
      c.kind == DeleteMission && Tells(c, guid, creator, at, at) && About(c, None, None, None, None)
    case ContentAdded(guid, content, creator, at, _, server) =>
      && c.kind == AddContent && About(c, Some(content), None, None, None)
      && Tells(c, guid, creator, at, if server.Some? then server.value else at)
    case ContentRemoved(guid, content, creator, at, _, server) =>
      && c.kind == RemoveContent && About(c, Some(content), None, None, None)
      && Tells(c, guid, creator, at, if server.Some? then server.value else at)
    case _ => false
  }

  lemma {:induction false} RowStep(s: State, e: Event)
    requires DenseIds(s) && Enabled(s, e)
    ensures RowId(e).None? ==> Apply(s, e).changes == s.changes
    ensures RowId(e).Some? ==>
      && RowId(e).value == |s.changes| && |Apply(s, e).changes| == |s.changes| + 1 && s.changes <= Apply(s, e).changes
      && RowOf(e, Apply(s, e).changes[|s.changes|])
  {
  }

  /** Event `i` left row `k`. */
  ghost predicate LeftBy(events: seq<Event>, i: int, changes: seq<Change>, k: int) {
    0 <= i < |events| && 0 <= k < |changes| && RowId(events[i]) == Some(k) && RowOf(events[i], changes[k])
  }

  ghost predicate SomeLeft(events: seq<Event>, changes: seq<Change>, k: int) {
    exists i :: LeftBy(events, i, changes, k)
  }

  /** Every row was left by one event, and every event that leaves a row left that one. */
  ghost predicate RowsRead(changes: seq<Change>, events: seq<Event>) {
    && (forall k :: 0 <= k < |changes| ==> SomeLeft(events, changes, k))
    && (forall i :: 0 <= i < |events| && RowId(events[i]).Some? ==> LeftBy(events, i, changes, RowId(events[i]).value))
    && (forall i, j :: 0 <= i < j < |events| && RowId(events[i]).Some? ==> RowId(events[i]) != RowId(events[j]))
  }

  lemma {:induction false} RowsAppend(changes: seq<Change>, events: seq<Event>, e: Event, more: seq<Change>)
    requires RowsRead(changes, events)
    requires if RowId(e).None? then more == changes
             else RowId(e).value == |changes| && |more| == |changes| + 1 && changes <= more && RowOf(e, more[|changes|])
    ensures RowsRead(more, events + [e])
  {
    var longer := events + [e];
    forall i, k | LeftBy(events, i, changes, k)
      ensures LeftBy(longer, i, more, k)
    {
      assert longer[i] == events[i] && more[k] == changes[k];
    }
    forall k | 0 <= k < |more|
      ensures SomeLeft(longer, more, k)
    {
      if k < |changes| {
        assert SomeLeft(events, changes, k);
        var i :| LeftBy(events, i, changes, k);
        assert LeftBy(longer, i, more, k);
      } else {
        assert LeftBy(longer, |events|, more, k);
      }
    }
    forall i | 0 <= i < |longer| && RowId(longer[i]).Some?
      ensures LeftBy(longer, i, more, RowId(longer[i]).value)
    {
      if i < |events| {
        assert LeftBy(events, i, changes, RowId(events[i]).value);
      }
    }
    forall i, j | 0 <= i < j < |longer| && RowId(longer[i]).Some?
      ensures RowId(longer[i]) != RowId(longer[j])
    {
      assert LeftBy(events, i, changes, RowId(events[i]).value);
    }
  }

  /** After every log of the store the rows are those its events left, one each, with the mission, the
      creator and the dates the event gives. */
  lemma {:induction false} RowsReadLog(events: seq<Event>)
    requires Legit(events)
    ensures RowsRead(StateAfter(events).changes, events)
  {
    if events != [] {
      var front, e := events[..|events| - 1], events[|events| - 1];
      assert events == front + [e];
      RowsReadLog(front);
      ReachableInv(front);
      FoldAppend(Apply, EMPTY, front, e);
      RowStep(StateAfter(front), e);
      RowsAppend(StateAfter(front).changes, front, e, StateAfter(events).changes);
    }
  }
}
