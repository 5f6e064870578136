/**
 Catching up: a client that has the contents a mission had at some time, and replays the squashed
 changes since then, has the contents the mission has now.
 */
module CatchUp {
  import opened Common
  import opened EventLogs
  import opened Missions
  import opened ChangeLog
  import opened ChangeViews
  import opened SquashTheorems

  /** The contents that rows, newest first, make of those already there. */
  ghost function ReplayOnto(base: seq<ContentAdd>, rows: seq<Change>): seq<ContentAdd> {
    if rows == [] then base else ReplayRow(ReplayOnto(base, rows[1..]), rows[0])
  }

  lemma {:induction false} ReplayConcat(rows: seq<Change>, older: seq<Change>)
    ensures ReplayOnto(Replay(older), rows) == Replay(rows + older)
  {
    if rows == [] {
      assert rows + older == older;
    } else {
      assert (rows + older)[1..] == rows[1..] + older;
      ReplayConcat(rows[1..], older);
    }
  }

  // ----- Rows that hold every item's latest change -----

  /** Position `i` is the mission's latest change of its item. */
  ghost predicate LatestChangeAt(s: State, guid: Name, i: int) {
    && 0 <= i < |s.changes| && s.changes[i].guid == guid && s.changes[i].content.Some?
    && forall j :: i < j < |s.changes| && s.changes[j].guid == guid ==> s.changes[j].content != s.changes[i].content
  }

  lemma {:induction false} LatestChangeExists(s: State, guid: Name, k: int) returns (i: int)
    requires 0 <= k < |s.changes| && s.changes[k].guid == guid && s.changes[k].content.Some?
    ensures i >= k && LatestChangeAt(s, guid, i) && s.changes[i].content == s.changes[k].content
    decreases |s.changes| - k
  {
    if j :| k < j < |s.changes| && s.changes[j].guid == guid && s.changes[j].content == s.changes[k].content {
      i := LatestChangeExists(s, guid, j);
    } else {
      i := k;
    }
  }

  /** Rows of the mission, newest first, that differ from the log's in dates at most. */
  ghost predicate FromLog(s: State, guid: Name, rows: seq<Change>) {
    && Descending(rows)
    && forall r :: r in rows ==>
         r.id < |s.changes| && s.changes[r.id].guid == guid && SameButTimes(r, s.changes[r.id])
  }

  ghost predicate HoldsLatest(s: State, guid: Name, rows: seq<Change>) {
    forall i :: LatestChangeAt(s, guid, i) ==> HasId(rows, i)
  }

  lemma {:induction false} PickIff(s: State, guid: Name, rows: seq<Change>, i: int)
    requires FromLog(s, guid, rows) && HoldsLatest(s, guid, rows)
    ensures HasId(LatestAdds(rows, 0), i) <==> LatestAddAt(s, guid, i)
  {
    LatestAddsSpec(rows, 0);
    assert rows[0..] == rows;
    if r :| r in LatestAdds(rows, 0) && r.id == i {
      var k := LatestChangeExists(s, guid, i);
      var t :| t in rows && t.id == k;
      assert k == i;
    }
    if LatestAddAt(s, guid, i) {
      assert LatestChangeAt(s, guid, i);
      var r :| r in rows && r.id == i;
      forall t | t in rows && t.id > i
        ensures t.content != r.content
      {
      }
      assert PickIn(rows, r);
    }
  }

  /** Such rows lead to the mission's items, in order and with their creators. */
  lemma {:induction false} LatestReplays(s: State, guid: Name, rows: seq<Change>)
    requires LogInv(s) && guid in s.missions && FromLog(s, guid, rows) && HoldsLatest(s, guid, rows)
    ensures SameItems(Replay(rows), s.missions[guid].contents)
  {
    var full := MissionRows(s.changes, guid);
    var a, b := LatestAdds(rows, 0), LatestAdds(full, 0);
    MissionRowsSpec(s, guid);
    LatestAddsSpec(rows, 0);
    LatestAddsSpec(full, 0);
    assert rows[0..] == rows && full[0..] == full;
    forall i
      ensures HasId(a, i) <==> HasId(b, i)
    {
      PickIff(s, guid, rows, i);
      PickFull(s, guid, i);
    }
    SameIds(a, b, 1);
    ReplayIsLatestAdds(rows);
    ContentsAre(s, guid);
    SamePicks(s, a, b);
  }

  lemma {:induction false} SamePicks(s: State, a: seq<Change>, b: seq<Change>)
    requires AllContent(a) && AllContent(b) && Ids(a) == Ids(b)
    requires forall r :: r in a ==> r.id < |s.changes| && SameButTimes(r, s.changes[r.id])
    requires forall r :: r in b ==> r.id < |s.changes| && r == s.changes[r.id]
    ensures SameItems(AsAdds(a), AsAdds(b))
  {
    AsAddsAt(a, 0);
    AsAddsAt(b, 0);
    assert |a| == |Ids(a)| == |Ids(b)| == |b|;
    forall n | 0 <= n < |a|
      ensures AsAdds(a)[n].content == AsAdds(b)[n].content && AsAdds(a)[n].creator == AsAdds(b)[n].creator
    {
      AsAddsAt(a, n);
      AsAddsAt(b, n);
      assert Ids(a)[n] == a[n].id && Ids(b)[n] == b[n].id;
      assert a[n] in a && b[n] in b;
    }
  }

  // ----- The squashed view since a time -----

  /** The mission's rows before position `n` are those from before `start`. */
  ghost predicate CutAt(s: State, guid: Name, start: Millis, n: nat) {
    && n <= |s.changes|
    && forall i :: 0 <= i < |s.changes| && s.changes[i].guid == guid ==> (i < n <==> s.changes[i].serverTime < start)
  }

  /** No item's latest change is dated before the mission. */
  ghost predicate LatestDatedAfterCreation(s: State, guid: Name)
    requires guid in s.missions
  {
    forall i :: LatestChangeAt(s, guid, i) ==> s.changes[i].timestamp >= s.missions[guid].createTime
  }

  lemma {:induction false} LatestIsShown(s: State, guid: Name, start: Millis, n: nat, rows: seq<Change>, i: int)
    requires LogInv(s) && guid in s.missions && CutAt(s, guid, start, n) && LatestDatedAfterCreation(s, guid)
    requires IsSquashedView(s, Query(guid, From(start)), rows) && LatestChangeAt(s, guid, i) && n <= i
    ensures HasId(rows, i)
  {
    var q, c := Query(guid, From(start)), s.changes[i];
    assert RowOk(s, c);
    PresentIff(s, guid, c.content.value);
    if c.kind == AddContent {
      assert LatestAddAt(s, guid, i);
    } else {
      forall k | LatestAddAt(s, guid, k)
        ensures s.changes[k].content != c.content
      {
        assert k != i;
      }
    }
    assert Fated(s, q, i) == Merged(ContentKey(c.kind == AddContent, c.content.value, c.creator));
    assert Keeps(s, q, i);
  }

  lemma {:induction false} SinceThenBefore(s: State, guid: Name, start: Millis, n: nat,
                                           rows: seq<Change>, older: seq<Change>)
    requires LogInv(s) && guid in s.missions && CutAt(s, guid, start, n) && LatestDatedAfterCreation(s, guid)
    requires IsSquashedView(s, Query(guid, From(start)), rows) && RowsOf(s, guid, n, older)
    ensures FromLog(s, guid, rows + older) && HoldsLatest(s, guid, rows + older)
  {
    var q, both := Query(guid, From(start)), rows + older;
    forall r | r in rows
      ensures n <= r.id < |s.changes| && s.changes[r.id].guid == guid && SameButTimes(r, s.changes[r.id])
    {
      assert ShownAs(s, q, r);
    }
    BothDescend(rows, older, n);
    forall i | LatestChangeAt(s, guid, i)
      ensures HasId(both, i)
    {
      if n <= i {
        LatestIsShown(s, guid, start, n, rows, i);
        var r :| r in rows && r.id == i;
        assert r in both;
      } else {
        assert s.changes[i] in older && s.changes[i] in both;
      }
    }
  }

  lemma {:induction false} BothDescend(rows: seq<Change>, older: seq<Change>, n: int)
    requires Descending(rows) && Descending(older)
    requires (forall r :: r in rows ==> n <= r.id) && (forall r :: r in older ==> r.id < n)
    ensures Descending(rows + older)
  {
    var both := rows + older;
    forall i, j | 0 <= i < j < |both|
      ensures both[i].id > both[j].id
    {
      if i < |rows| <= j {
        assert rows[i] in rows && older[j - |rows|] in older;
      } else if |rows| <= i {
        assert older[i - |rows|].id > older[j - |rows|].id;
      }
    }
  }

  /** The squashed rows since `start`, replayed onto what the rows before then lead to, give the
      present items, in their order and with their creators. */
  lemma {:induction false} CatchesUp(s: State, guid: Name, start: Millis, n: nat, rows: seq<Change>)
    requires LogInv(s) && guid in s.missions && CutAt(s, guid, start, n) && LatestDatedAfterCreation(s, guid)
    requires IsSquashedView(s, Query(guid, From(start)), rows)
    ensures SameItems(ReplayOnto(Replay(MissionRows(s.changes[..n], guid)), rows), s.missions[guid].contents)
  {
    var older := MissionRows(s.changes[..n], guid);
    MissionRowsUpTo(s, guid, n);
    SinceThenBefore(s, guid, start, n, rows, older);
    ReplayConcat(rows, older);
    LatestReplays(s, guid, rows + older);
  }

  // ----- Over the log -----

  lemma {:induction false} ChangesGrow(events: seq<Event>, k: nat)
    requires k <= |events|
    ensures StateAfter(events[..k]).changes <= StateAfter(events).changes
    decreases |events|
  {
    if k == |events| {
      assert events[..k] == events;
    } else {
      var front := events[..|events| - 1];
      ChangesGrow(front, k);
      assert front[..k] == events[..k];
      ChangesStep(StateAfter(front), events[|events| - 1]);
    }
  }

  lemma {:induction false} ChangesStep(s: State, e: Event)
    ensures s.changes <= Apply(s, e).changes
  {
  }

  lemma {:induction false} LegitPrefix(events: seq<Event>, k: nat)
    requires Legit(events) && k <= |events|
    ensures Legit(events[..k])
    decreases |events|
  {
    if k == |events| {
      assert events[..k] == events;
    } else {
      var front := events[..|events| - 1];
      LegitPrefix(front, k);
      assert front[..k] == events[..k];
    }
  }

  /** A client that has the contents of the mission after the first `k` events, and asks for the
      squashed changes since a time between those events' rows and the later ones, gets to the
      present items. */
  lemma {:induction false} ClientCatchesUp(events: seq<Event>, k: nat, guid: Name, start: Millis, rows: seq<Change>)
    requires Legit(events) && k <= |events|
    requires var before, now := StateAfter(events[..k]), StateAfter(events);
      && guid in before.missions && guid in now.missions
      && CutAt(now, guid, start, |before.changes|) && LatestDatedAfterCreation(now, guid)
      && IsSquashedView(now, Query(guid, From(start)), rows)
    ensures var before, now := StateAfter(events[..k]), StateAfter(events);
      SameItems(ReplayOnto(before.missions[guid].contents, rows), now.missions[guid].contents)
  {
    var before, now := StateAfter(events[..k]), StateAfter(events);
    LegitPrefix(events, k);
    ReachableInv(events[..k]);
    ReachableInv(events);
    ChangesGrow(events, k);
    assert now.changes[..|before.changes|] == before.changes;
    CatchesUp(now, guid, start, |before.changes|, rows);
  }

  // ----- Exactly when -----

  ghost predicate Holds(contents: seq<ContentAdd>, x: Content) {
    exists a :: a in contents && a.content == x
  }

  ghost predicate Touches(r: Change, x: Content) {
    r.content == Some(x)
  }

  lemma {:induction false} WithoutHolds(contents: seq<ContentAdd>, y: Content, x: Content)
    ensures Holds(Without(contents, y), x) <==> x != y && Holds(contents, x)
  {
    if contents != [] {
      var front, last := contents[..|contents| - 1], contents[|contents| - 1];
      WithoutHolds(front, y, x);
      assert contents == front + [last];
      HoldsAppend(front, last, x);
      HoldsAppend(Without(front, y), last, x);
    }
  }

  lemma {:induction false} HoldsAppend(contents: seq<ContentAdd>, a: ContentAdd, x: Content)
    ensures Holds(contents + [a], x) <==> Holds(contents, x) || a.content == x
  {
    if b :| b in contents && b.content == x {
      assert b in contents + [a];
    }
    assert a in contents + [a];
  }

  lemma {:induction false} RowHolds(contents: seq<ContentAdd>, r: Change, x: Content)
    ensures Holds(ReplayRow(contents, r), x) <==> if Touches(r, x) then r.kind == AddContent else Holds(contents, x)
  {
    if r.content.Some? {
      WithoutHolds(contents, r.content.value, x);
      HoldsAppend(Without(contents, r.content.value), ContentAdd(r.content.value, r.timestamp, r.creator), x);
    }
  }

  /** If the rows that touch an item all add it, or all remove it, that is what they come to. */
  lemma {:induction false} RowsHold(base: seq<ContentAdd>, rows: seq<Change>, x: Content, there: bool)
    requires forall r :: r in rows && Touches(r, x) ==> (r.kind == AddContent <==> there)
    ensures Holds(ReplayOnto(base, rows), x) <==> if exists r :: r in rows && Touches(r, x) then there else Holds(base, x)
  {
    if rows != [] {
      RowsHold(base, rows[1..], x, there);
      RowHolds(ReplayOnto(base, rows[1..]), rows[0], x);
      assert rows == [rows[0]] + rows[1..];
    }
  }

  /** Since position `n` the log says that the item is there, or that it is not, whichever is so,
      with a date not before the mission. */
  ghost predicate TellsOf(s: State, guid: Name, n: nat, x: Content)
    requires guid in s.missions
  {
    exists i :: TellsAt(s, guid, n, x, i)
  }

  ghost predicate TellsAt(s: State, guid: Name, n: nat, x: Content, i: int)
    requires guid in s.missions
  {
    && n <= i < |s.changes| && s.changes[i].guid == guid && s.changes[i].content == Some(x)
    && s.changes[i].timestamp >= s.missions[guid].createTime
    && (s.changes[i].kind == AddContent <==> Holds(s.missions[guid].contents, x))
  }

  lemma {:induction false} NewestKept(s: State, q: Query, i: int) returns (k: int)
    requires q.guid in s.missions && Fated(s, q, i).Merged?
    ensures Keeps(s, q, k) && Fated(s, q, k) == Fated(s, q, i)
    decreases |s.changes| - i
  {
    if j :| j > i && Fated(s, q, j) == Fated(s, q, i) {
      k := NewestKept(s, q, j);
    } else {
      k := i;
    }
  }

  lemma {:induction false} RowTellsOf(s: State, guid: Name, start: Millis, n: nat, rows: seq<Change>, x: Content)
    requires LogInv(s) && guid in s.missions && CutAt(s, guid, start, n)
    requires IsSquashedView(s, Query(guid, From(start)), rows)
    ensures (exists r :: r in rows && Touches(r, x)) <==> TellsOf(s, guid, n, x)
    ensures forall r :: r in rows && Touches(r, x) ==> (r.kind == AddContent <==> Holds(s.missions[guid].contents, x))
  {
    var q := Query(guid, From(start));
    assert Has(s.missions[guid], x) <==> Holds(s.missions[guid].contents, x);
    forall r | r in rows && Touches(r, x)
      ensures TellsAt(s, guid, n, x, r.id) && (r.kind == AddContent <==> Holds(s.missions[guid].contents, x))
    {
      assert ShownAs(s, q, r);
      assert RowOk(s, s.changes[r.id]);
    }
    if i :| TellsAt(s, guid, n, x, i) {
      assert RowOk(s, s.changes[i]);
      var k := NewestKept(s, q, i);
      assert HasId(rows, k);
      var r :| r in rows && r.id == k;
      assert ShownAs(s, q, r) && RowOk(s, s.changes[k]);
      assert Touches(r, x);
    }
  }

  /** The client ends with the present items exactly if the log since then, in rows not dated before
      the mission, tells of every item that it has and the mission has not, or the reverse. */
  lemma {:induction false} CatchesUpIff(s: State, guid: Name, start: Millis, n: nat,
                                        base: seq<ContentAdd>, rows: seq<Change>)
    requires LogInv(s) && guid in s.missions && CutAt(s, guid, start, n)
    requires IsSquashedView(s, Query(guid, From(start)), rows)
    ensures (forall x :: Holds(ReplayOnto(base, rows), x) <==> Holds(s.missions[guid].contents, x)) <==>
      forall x :: (Holds(base, x) <==> Holds(s.missions[guid].contents, x)) || TellsOf(s, guid, n, x)
  {
    forall x
      ensures Holds(ReplayOnto(base, rows), x) <==>
              if TellsOf(s, guid, n, x) then Holds(s.missions[guid].contents, x) else Holds(base, x)
    {
      RowTellsOf(s, guid, start, n, rows, x);
      RowsHold(base, rows, x, Holds(s.missions[guid].contents, x));
    }
  }

  // ----- A removal dated before the mission -----

  /** A mission created at 5, an item added at 6, and removed at 7 with the date 3. */
  ghost function EarlyRemoval(guid: Name, name: Name, creator: Name, x: Content): seq<Event> {
    [Created(Mission(guid, name, creator, 5, [], false), 0),
     ContentAdded(guid, x, creator, 6, 1, None), ContentRemoved(guid, x, creator, 3, 2, Some(7))]
  }

  ghost function EarlyRemovalState(guid: Name, name: Name, creator: Name, x: Content, n: nat): State
    requires 2 <= n <= 3
  {
    State(map[guid := Mission(guid, name, creator, 5, if n == 2 then [ContentAdd(x, 6, creator)] else [], false)],
          [Change(0, CreateMission, guid, Some(name), None, creator, 5, 5, None, None, None),
           Change(1, AddContent, guid, Some(name), Some(x), creator, 6, 6, None, None, None),
           Change(2, RemoveContent, guid, Some(name), Some(x), creator, 3, 7, None, None, None)][..n],
          n, map[], map[], {}, {})
  }

  lemma {:induction false} EarlyAdd(guid: Name, name: Name, creator: Name, x: Content)
    ensures var events := EarlyRemoval(guid, name, creator, x)[..2];
      Legit(events) && StateAfter(events) == EarlyRemovalState(guid, name, creator, x, 2)
  {
    var events := EarlyRemoval(guid, name, creator, x);
    LegitAppend([], events[0]);
    assert [] + [events[0]] == [events[0]];
    LegitAppend([events[0]], events[1]);
    assert [events[0]] + [events[1]] == events[..2];
    var s, t := StateAfter(events[..2]), EarlyRemovalState(guid, name, creator, x, 2);
    assert s.changes == t.changes;
    assert s.missions[guid] == t.missions[guid];
    assert s.missions == t.missions;
  }

  lemma {:induction false} EarlyRemovalReached(guid: Name, name: Name, creator: Name, x: Content)
    ensures var events := EarlyRemoval(guid, name, creator, x);
      Legit(events) && StateAfter(events) == EarlyRemovalState(guid, name, creator, x, 3)
  {
    var events := EarlyRemoval(guid, name, creator, x);
    var once := [ContentAdd(x, 6, creator)];
    EarlyAdd(guid, name, creator, x);
    LegitAppend(events[..2], events[2]);
    assert events[..2] + [events[2]] == events;
    assert Without(once, x) == [] by {
      assert once[..0] == [];
    }
    var s, t := StateAfter(events), EarlyRemovalState(guid, name, creator, x, 3);
    assert s.changes == t.changes;
    assert s.missions[guid] == t.missions[guid];
    assert s.missions == t.missions;
  }

  /** The squashed view since 7 is empty, and the client keeps the item. */
  lemma {:induction false} EarlyRemovalMissed(guid: Name, name: Name, creator: Name, x: Content, rows: seq<Change>)
    requires IsSquashedView(EarlyRemovalState(guid, name, creator, x, 3), Query(guid, From(7)), rows)
    ensures var before, now := EarlyRemovalState(guid, name, creator, x, 2), EarlyRemovalState(guid, name, creator, x, 3);
      && CutAt(now, guid, 7, |before.changes|) && !LatestDatedAfterCreation(now, guid)
      && ReplayOnto(before.missions[guid].contents, rows) == [ContentAdd(x, 6, creator)]
      && now.missions[guid].contents == []
  {
    var now := EarlyRemovalState(guid, name, creator, x, 3);
    assert LatestChangeAt(now, guid, 2);
    forall r
      ensures !ShownAs(now, Query(guid, From(7)), r)
    {
      EarlyRemovalNotShown(guid, name, creator, x, r);
    }
    SomeRow(rows);
  }

  lemma SomeRow(rows: seq<Change>)
    ensures rows == [] || exists r :: r in rows
  {
    if rows != [] {
      assert rows[0] in rows;
    }
  }

  lemma {:induction false} EarlyRemovalNotShown(guid: Name, name: Name, creator: Name, x: Content, r: Change)
    ensures !ShownAs(EarlyRemovalState(guid, name, creator, x, 3), Query(guid, From(7)), r)
  {
  }
}
