/**
 The mission change log. `contents` is an index over the log, and the squashed view a lossy
 compression of it; both are related here to the plain log.
 */
module ChangeLog {
  import opened Common
  import opened EventLogs
  import opened Missions

  // ----- Which events the store records -----

  /** The checks every store operation makes before it records its event. Guids of new
      missions are random, hence fresh. */
  ghost predicate Enabled(s: State, e: Event) {
    match e
    case FeedAdded(guid, feed, _, id, _) => guid in s.missions && feed !in s.feeds && id == s.nextChangeId
    case FeedRemoved(guid, feed, _, id, _) => guid in s.missions && feed in s.feeds && id == s.nextChangeId
    case MapLayerSaved(guid, _, _, _, id) => id.Some? ==> guid in s.missions && id.value == s.nextChangeId
    case ExternalSet(guid, _, _, _, id) => guid in s.missions && id == s.nextChangeId
    case ExternalChanged(guid, change, _, _, _, id) =>
      guid in s.missions && change.uid in s.external && id == s.nextChangeId
    case Created(m, id) => m.guid !in s.missions && m.contents == [] && !m.deleted && id == s.nextChangeId
    case Deleted(guid, _, _, id) => guid in s.missions && id == s.nextChangeId
    case ContentAdded(guid, _, _, _, id, _) => guid in s.missions && id == s.nextChangeId
    case ContentRemoved(guid, _, _, _, id, _) => guid in s.missions && id == s.nextChangeId
    case _ => true
  }

  /** A log the store can have written. */
  ghost predicate Legit(events: seq<Event>) {
    events == [] ||
    (Legit(events[..|events| - 1]) && Enabled(StateAfter(events[..|events| - 1]), events[|events| - 1]))
  }

  lemma LegitAppend(events: seq<Event>, e: Event)
    requires Legit(events) && Enabled(StateAfter(events), e)
    ensures Legit(events + [e]) && StateAfter(events + [e]) == Apply(StateAfter(events), e)
  {
    assert (events + [e])[..|events|] == events;
    FoldAppend(Apply, EMPTY, events, e);
  }

  // ----- Reading rows back into contents -----

  /** The rows of one mission, newest first: the full (not squashed) view. */
  ghost function MissionRows(changes: seq<Change>, guid: Name): seq<Change> {
    if changes == [] then []
    else
      var last, older := changes[|changes| - 1], MissionRows(changes[..|changes| - 1], guid);
      if last.guid == guid then [last] + older else older
  }

  /** What a row does to the contents. */
  ghost function ReplayRow(contents: seq<ContentAdd>, r: Change): seq<ContentAdd> {
    if r.content.None? then contents
    else
      var kept := Without(contents, r.content.value);
      if r.kind == AddContent then kept + [ContentAdd(r.content.value, r.timestamp, r.creator)] else kept
  }

  /** The contents a list of rows, newest first, leads to. */
  ghost function Replay(rows: seq<Change>): seq<ContentAdd> {
    if rows == [] then [] else ReplayRow(Replay(rows[1..]), rows[0])
  }

  /** Row `k` is an add and nothing newer touches its item. */
  ghost predicate IsLatestAdd(rows: seq<Change>, k: int)
    requires 0 <= k < |rows|
  {
    && rows[k].content.Some? && rows[k].kind == AddContent
    && forall j :: 0 <= j < k ==> rows[j].content != rows[k].content
  }

  /** The latest adds among the rows from `k` on, oldest first. */
  ghost function LatestAdds(rows: seq<Change>, k: nat): seq<Change>
    requires k <= |rows|
    decreases |rows| - k
  {
    if k == |rows| then []
    else if IsLatestAdd(rows, k) then LatestAdds(rows, k + 1) + [rows[k]]
    else LatestAdds(rows, k + 1)
  }

  ghost function AsAdd(r: Change): ContentAdd
    requires r.content.Some?
  {
    ContentAdd(r.content.value, r.timestamp, r.creator)
  }

  ghost predicate AllContent(rows: seq<Change>) {
    forall r :: r in rows ==> r.content.Some?
  }

  ghost function AsAdds(rows: seq<Change>): seq<ContentAdd>
    requires AllContent(rows)
  {
    if rows == [] then [] else AsAdds(rows[..|rows| - 1]) + [AsAdd(rows[|rows| - 1])]
  }

  lemma {:induction false} LatestAddsContent(rows: seq<Change>, k: nat)
    requires k <= |rows|
    ensures AllContent(LatestAdds(rows, k))
    decreases |rows| - k
  {
    if k < |rows| { LatestAddsContent(rows, k + 1); }
  }

  lemma AsAddsAppend(rows: seq<Change>, r: Change)
    requires AllContent(rows) && r.content.Some?
    ensures AllContent(rows + [r]) && AsAdds(rows + [r]) == AsAdds(rows) + [AsAdd(r)]
  {
    assert (rows + [r])[..|rows|] == rows;
  }

  lemma WithoutAppend(contents: seq<ContentAdd>, a: ContentAdd, x: Content)
    ensures Without(contents + [a], x) == Without(contents, x) + (if a.content == x then [] else [a])
  {
    assert (contents + [a])[..|contents|] == contents;
  }

  /** A newer row for an item removes that item from the latest adds and nothing else. */
  lemma {:induction false} NewerRow(x: Change, rest: seq<Change>, k: nat)
    requires k <= |rest|
    ensures AllContent(LatestAdds(rest, k)) && AllContent(LatestAdds([x] + rest, k + 1))
    ensures AsAdds(LatestAdds([x] + rest, k + 1)) ==
            if x.content.None? then AsAdds(LatestAdds(rest, k))
            else Without(AsAdds(LatestAdds(rest, k)), x.content.value)
    decreases |rest| - k
  {
    LatestAddsContent(rest, k);
    LatestAddsContent([x] + rest, k + 1);
    if k < |rest| {
      var rows := [x] + rest;
      NewerRow(x, rest, k + 1);
      LatestAddsContent(rest, k + 1);
      LatestAddsContent(rows, k + 2);
      NewerPick(x, rest, k);
      if IsLatestAdd(rest, k) {
        AsAddsAppend(LatestAdds(rest, k + 1), rest[k]);
        WithoutAppend(AsAdds(LatestAdds(rest, k + 1)), AsAdd(rest[k]), if x.content.Some? then x.content.value else rest[k].content.value);
      }
      if IsLatestAdd(rows, k + 1) {
        AsAddsAppend(LatestAdds(rows, k + 2), rows[k + 1]);
      }
    }
  }

  lemma NewerPick(x: Change, rest: seq<Change>, k: nat)
    requires k < |rest|
    ensures IsLatestAdd([x] + rest, k + 1) <==> IsLatestAdd(rest, k) && x.content != rest[k].content
  {
    var rows := [x] + rest;
    if IsLatestAdd(rows, k + 1) {
      forall j | 0 <= j < k
        ensures rest[j].content != rest[k].content
      {
        assert rows[j + 1] == rest[j];
      }
      assert rows[0] == x;
    }
  }

  /** Replaying rows one by one leaves exactly each item's latest change, if it is an add,
      in the order of those adds. */
  lemma {:induction false} ReplayIsLatestAdds(rows: seq<Change>)
    ensures AllContent(LatestAdds(rows, 0)) && Replay(rows) == AsAdds(LatestAdds(rows, 0))
  {
    LatestAddsContent(rows, 0);
    if rows != [] {
      var x, rest := rows[0], rows[1..];
      assert rows == [x] + rest;
      ReplayIsLatestAdds(rest);
      NewerRow(x, rest, 0);
      if IsLatestAdd(rows, 0) {
        AsAddsAppend(LatestAdds(rows, 1), x);
      }
    }
  }

  // ----- What every reachable state satisfies -----

  ghost predicate DenseIds(s: State) {
    s.nextChangeId == |s.changes| && forall i :: 0 <= i < |s.changes| ==> s.changes[i].id == i
  }

  /** Rows belong to a mission, carry its name, and say one thing each. */
  ghost predicate RowOk(s: State, c: Change) {
    && c.guid in s.missions && c.missionName == Some(s.missions[c.guid].name)
    && match c.kind
       case AddContent =>
         c.feed.None? && (|| (c.content.Some? && c.external.None? && c.mapLayer.None?)
                          || (c.content.None? && c.external.Some? && c.mapLayer.None?)
                          || (c.content.None? && c.external.None? && c.mapLayer.Some?))
       case RemoveContent =>
         c.feed.None? && c.mapLayer.None? && (c.content.Some? <==> c.external.None?)
       case _ => c.content.None? && c.external.None? && c.mapLayer.None?
  }

  ghost predicate RowsOk(s: State) {
    forall i :: 0 <= i < |s.changes| ==> RowOk(s, s.changes[i])
  }

  /** Each mission's contents are what its rows lead to. */
  ghost predicate ContentsReplay(s: State) {
    forall g :: g in s.missions ==> s.missions[g].contents == Replay(MissionRows(s.changes, g))
  }

  ghost predicate LogInv(s: State) {
    DenseIds(s) && RowsOk(s) && ContentsReplay(s)
  }

  lemma MissionRowsAppend(changes: seq<Change>, c: Change, g: Name)
    ensures MissionRows(changes + [c], g) == if c.guid == g then [c] + MissionRows(changes, g) else MissionRows(changes, g)
  {
    assert (changes + [c])[..|changes|] == changes;
  }

  lemma {:induction false} NoRows(s: State, n: nat, g: Name)
    requires n <= |s.changes| && RowsOk(s) && g !in s.missions
    ensures MissionRows(s.changes[..n], g) == []
  {
    if n > 0 {
      NoRows(s, n - 1, g);
      assert RowOk(s, s.changes[n - 1]);
      assert s.changes[..n] == s.changes[..n - 1] + [s.changes[n - 1]];
      MissionRowsAppend(s.changes[..n - 1], s.changes[n - 1], g);
    }
  }

  /** Missions a step keeps: none disappears or is renamed. */
  ghost predicate KeepsMissions(s: State, t: State) {
    forall g :: g in s.missions ==> g in t.missions && t.missions[g].name == s.missions[g].name
  }

  lemma RowsKept(s: State, t: State, c: Change)
    requires RowsOk(s) && KeepsMissions(s, t) && t.changes == s.changes + [c] && RowOk(t, c)
    ensures RowsOk(t)
  {
    forall i | 0 <= i < |t.changes|
      ensures RowOk(t, t.changes[i])
    {
      if i < |s.changes| { assert RowOk(s, s.changes[i]); }
    }
  }

  /** Pushing the row an event describes keeps the contents in step. */
  lemma ContentsKept(s: State, t: State, c: Change)
    requires ContentsReplay(s) && t.changes == s.changes + [c] && t.missions.Keys == s.missions.Keys
    requires forall g :: g in s.missions && g != c.guid ==> t.missions[g].contents == s.missions[g].contents
    requires c.guid in s.missions && t.missions[c.guid].contents == ReplayRow(s.missions[c.guid].contents, c)
    ensures ContentsReplay(t)
  {
    forall g | g in t.missions
      ensures t.missions[g].contents == Replay(MissionRows(t.changes, g))
    {
      MissionRowsAppend(s.changes, c, g);
      var rows := MissionRows(s.changes, g);
      assert ([c] + rows)[1..] == rows;
    }
  }

  lemma NewMissionEmpty(s: State, c: Change)
    requires RowsOk(s) && c.guid !in s.missions && c.content.None?
    ensures Replay(MissionRows(s.changes + [c], c.guid)) == []
  {
    MissionRowsAppend(s.changes, c, c.guid);
    NoRows(s, |s.changes|, c.guid);
    assert s.changes[..|s.changes|] == s.changes;
    assert [c][1..] == [];
  }

  lemma {:induction false} CreateKeeps(s: State, e: Event)
    requires LogInv(s) && Enabled(s, e) && e.Created?
    ensures LogInv(Apply(s, e))
  {
    var t := Apply(s, e);
    var c := t.changes[|s.changes|];
    RowsKept(s, t, c);
    NewMissionEmpty(s, c);
    forall g | g in t.missions && g != c.guid
      ensures t.missions[g].contents == Replay(MissionRows(t.changes, g))
    {
      MissionRowsAppend(s.changes, c, g);
    }
  }

  lemma PushKeeps(s: State, t: State, c: Change)
    requires LogInv(s) && KeepsMissions(s, t) && t.missions.Keys == s.missions.Keys
    requires t.changes == s.changes + [c] && RowOk(t, c) && c.id == |s.changes| && t.nextChangeId == c.id + 1
    requires forall g :: g in s.missions && g != c.guid ==> t.missions[g].contents == s.missions[g].contents
    requires t.missions[c.guid].contents == ReplayRow(s.missions[c.guid].contents, c)
    ensures LogInv(t)
  {
    RowsKept(s, t, c);
    ContentsKept(s, t, c);
  }

  lemma DeletedEventKeeps(s: State, e: Event)
    requires LogInv(s) && Enabled(s, e) && e.Deleted?
    ensures LogInv(Apply(s, e))
  {
    var t := Apply(s, e);
    PushKeeps(s, t, t.changes[|s.changes|]);
  }

  lemma {:induction false} AddEventKeeps(s: State, e: Event)
    requires LogInv(s) && Enabled(s, e) && e.ContentAdded?
    ensures LogInv(Apply(s, e))
  {
    var t := Apply(s, e);
    PushKeeps(s, t, t.changes[|s.changes|]);
  }

  lemma {:induction false} RemoveEventKeeps(s: State, e: Event)
    requires LogInv(s) && Enabled(s, e) && e.ContentRemoved?
    ensures LogInv(Apply(s, e))
  {
    var t := Apply(s, e);
    PushKeeps(s, t, t.changes[|s.changes|]);
  }

  lemma FeedEventKeeps(s: State, e: Event)
    requires LogInv(s) && Enabled(s, e) && (e.FeedAdded? || e.FeedRemoved?)
    ensures LogInv(Apply(s, e))
  {
    var t := Apply(s, e);
    PushKeeps(s, t, t.changes[|s.changes|]);
  }

  lemma {:induction false} ExternalEventKeeps(s: State, e: Event)
    requires LogInv(s) && Enabled(s, e) && (e.ExternalSet? || e.ExternalChanged?)
    ensures LogInv(Apply(s, e))
  {
    var t := Apply(s, e);
    PushKeeps(s, t, t.changes[|s.changes|]);
  }

  /** An event that leaves missions and changes alone. */
  lemma NoRowKeeps(s: State, t: State)
    requires LogInv(s) && t.missions == s.missions && t.changes == s.changes && t.nextChangeId == s.nextChangeId
    ensures LogInv(t)
  {
    forall i | 0 <= i < |t.changes|
      ensures RowOk(t, t.changes[i])
    {
      assert RowOk(s, s.changes[i]);
    }
  }

  lemma MapLayerEventKeeps(s: State, e: Event)
    requires LogInv(s) && Enabled(s, e) && e.MapLayerSaved?
    ensures LogInv(Apply(s, e))
  {
    var t := Apply(s, e);
    if e.savedAs.None? {
      NoRowKeeps(s, t);
    } else {
      PushKeeps(s, t, t.changes[|s.changes|]);
    }
  }

  lemma EventKeeps(s: State, e: Event)
    requires LogInv(s) && Enabled(s, e)
    ensures LogInv(Apply(s, e))
  {
    if IsLayerEvent(e) {
      NoRowKeeps(s, Apply(s, e));
    } else if e.Created? {
      CreateKeeps(s, e);
    } else if e.Deleted? {
      DeletedEventKeeps(s, e);
    } else if e.ContentAdded? {
      AddEventKeeps(s, e);
    } else if e.ContentRemoved? {
      RemoveEventKeeps(s, e);
    } else if e.MapLayerSaved? {
      MapLayerEventKeeps(s, e);
    } else if e.FeedAdded? || e.FeedRemoved? {
      FeedEventKeeps(s, e);
    } else {
      ExternalEventKeeps(s, e);
    }
  }

  /** In every state the store can reach, change ids are dense and equal to the position in
      the log, and the contents of each mission are what its rows lead to. */
  lemma {:induction false} ReachableInv(events: seq<Event>)
    requires Legit(events)
    ensures LogInv(StateAfter(events))
  {
    if events != [] {
      var front := events[..|events| - 1];
      ReachableInv(front);
      EventKeeps(StateAfter(front), events[|events| - 1]);
    }
  }
}
