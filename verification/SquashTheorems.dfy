/**
 The squashed view against the plain log: replaying it rebuilds the contents, and asking it
 for a later start is the same as cutting it off there.
 */
module SquashTheorems {
  import opened Common
  import opened Missions
  import opened ChangeLog
  import opened ChangeViews

  // ----- Lists ordered by id -----

  ghost function Ids(rows: seq<Change>): seq<int> {
    seq(|rows|, i requires 0 <= i < |rows| => rows[i].id)
  }

  ghost predicate Ascending(rows: seq<Change>) {
    forall i, j :: 0 <= i < j < |rows| ==> rows[i].id < rows[j].id
  }

  ghost predicate SameIdSet(a: seq<Change>, b: seq<Change>) {
    forall i :: HasId(a, i) <==> HasId(b, i)
  }

  /** The ids times `sign`, so that both orders become ascending. */
  ghost function Signed(rows: seq<Change>, sign: int): seq<int> {
    seq(|rows|, i requires 0 <= i < |rows| => sign * rows[i].id)
  }

  lemma SignedHas(rows: seq<Change>, sign: int, i: int)
    requires sign == 1 || sign == -1
    ensures sign * i in Signed(rows, sign) <==> HasId(rows, i)
  {
    if HasId(rows, i) {
      var r :| r in rows && r.id == i;
      var k :| 0 <= k < |rows| && rows[k] == r;
      assert Signed(rows, sign)[k] == sign * i;
    }
    if sign * i in Signed(rows, sign) {
      var k :| 0 <= k < |rows| && Signed(rows, sign)[k] == sign * i;
      assert rows[k] in rows;
    }
  }

  lemma SameIds(a: seq<Change>, b: seq<Change>, sign: int)
    requires sign == 1 || sign == -1
    requires Increasing(Signed(a, sign)) && Increasing(Signed(b, sign)) && SameIdSet(a, b)
    ensures Ids(a) == Ids(b)
  {
    var x, y := Signed(a, sign), Signed(b, sign);
    forall v
      ensures v in x <==> v in y
    {
      SignedHas(a, sign, sign * v);
      SignedHas(b, sign, sign * v);
      assert sign * (sign * v) == v;
    }
    SameIncreasing(x, y);
    forall n | 0 <= n < |a|
      ensures a[n].id == b[n].id
    {
      assert x[n] == y[n];
    }
  }

  // ----- Squashing from a later start -----

  function From(start: Millis): Window {
    Window(start, I64_MAX)
  }

  /** Server times never decrease along the ids of the mission. */
  ghost predicate ServerTimesRise(s: State, guid: Name) {
    forall i, j :: 0 <= i < j < |s.changes| && s.changes[i].guid == guid && s.changes[j].guid == guid ==>
      s.changes[i].serverTime <= s.changes[j].serverTime
  }

  lemma KeepsFrom(s: State, guid: Name, start: Millis, i: int)
    requires guid in s.missions && ServerTimesRise(s, guid)
    ensures Keeps(s, Query(guid, From(start)), i) <==>
            Keeps(s, Query(guid, ALL), i) && s.changes[i].serverTime >= start
  {
    var a, b := Query(guid, From(start)), Query(guid, ALL);
    if Fated(s, a, i).Merged? {
      assert Fated(s, a, i) == Fated(s, b, i);
      forall j | j > i
        ensures Fated(s, a, j) == Fated(s, a, i) <==> Fated(s, b, j) == Fated(s, b, i)
      {
      }
    }
  }

  lemma ShownServerTime(s: State, guid: Name, r: Change)
    requires guid in s.missions && ServerTimesRise(s, guid) && ShownAs(s, Query(guid, ALL), r)
    ensures r.serverTime == s.changes[r.id].serverTime
  {
  }

  /** The rows at or after a server time. */
  ghost function Since(rows: seq<Change>, start: Millis): seq<Change> {
    if rows == [] then []
    else
      var rest := Since(rows[..|rows| - 1], start);
      if rows[|rows| - 1].serverTime >= start then rest + [rows[|rows| - 1]] else rest
  }

  lemma {:induction false} SinceSpec(rows: seq<Change>, start: Millis)
    requires Descending(rows)
    ensures Descending(Since(rows, start))
    ensures forall r :: r in Since(rows, start) <==> r in rows && r.serverTime >= start
  {
    if rows != [] {
      var front, last := rows[..|rows| - 1], rows[|rows| - 1];
      assert rows == front + [last];
      SinceSpec(front, start);
      forall r | r in Since(front, start)
        ensures r.id > last.id
      {
      }
    }
  }

  /** If server times never decrease along ids, the squashed view from a start time has
      exactly the ids of the whole squashed view's rows at or after that time. */
  lemma SquashFromStart(s: State, guid: Name, start: Millis, whole: seq<Change>, part: seq<Change>)
    requires guid in s.missions && ServerTimesRise(s, guid)
    requires IsSquashedView(s, Query(guid, ALL), whole)
    requires IsSquashedView(s, Query(guid, From(start)), part)
    ensures Descending(part) && Ids(part) == Ids(Since(whole, start))
  {
    var a, b := Query(guid, From(start)), Query(guid, ALL);
    SinceSpec(whole, start);
    forall i
      ensures HasId(part, i) <==> HasId(Since(whole, start), i)
    {
      KeepsFrom(s, guid, start, i);
      if HasId(part, i) {
        var r :| r in part && r.id == i;
        ShownIsKept(s, a, r);
        assert HasId(whole, i);
        var t :| t in whole && t.id == i;
        ShownServerTime(s, guid, t);
      }
      if HasId(Since(whole, start), i) {
        var r :| r in Since(whole, start) && r.id == i;
        ShownIsKept(s, b, r);
        ShownServerTime(s, guid, r);
      }
    }
    SameIds(part, Since(whole, start), -1);
  }

  // ----- Replaying the squashed view -----

  /** Position `i` of the log is the mission's latest change of its item, and an add. */
  ghost predicate LatestAddAt(s: State, guid: Name, i: int) {
    && 0 <= i < |s.changes| && s.changes[i].guid == guid
    && s.changes[i].content.Some? && s.changes[i].kind == AddContent
    && forall j :: i < j < |s.changes| && s.changes[j].guid == guid ==> s.changes[j].content != s.changes[i].content
  }

  /** `r` is an add and no row with a greater id touches its item. */
  ghost predicate PickIn(rows: seq<Change>, r: Change) {
    && r in rows && r.content.Some? && r.kind == AddContent
    && forall t :: t in rows && t.id > r.id ==> t.content != r.content
  }

  lemma PickAt(rows: seq<Change>, k: nat)
    requires Descending(rows) && k < |rows|
    ensures IsLatestAdd(rows, k) <==> PickIn(rows, rows[k])
  {
    if IsLatestAdd(rows, k) {
      forall t | t in rows && t.id > rows[k].id
        ensures t.content != rows[k].content
      {
        var j :| 0 <= j < |rows| && rows[j] == t;
      }
    }
    if PickIn(rows, rows[k]) {
      forall j | 0 <= j < k
        ensures rows[j].content != rows[k].content
      {
        assert rows[j] in rows;
      }
    }
  }

  /** The latest adds of a newest-first list: exactly its picks, by ascending id. */
  lemma {:induction false} LatestAddsSpec(rows: seq<Change>, k: nat)
    requires Descending(rows) && k <= |rows|
    ensures Ascending(LatestAdds(rows, k))
    ensures forall r :: r in LatestAdds(rows, k) <==> r in rows[k..] && PickIn(rows, r)
    decreases |rows| - k
  {
    if k < |rows| {
      LatestAddsSpec(rows, k + 1);
      PickAt(rows, k);
      assert rows[k..] == [rows[k]] + rows[k + 1..];
      forall r | r in rows[k + 1..]
        ensures r.id < rows[k].id
      {
        var j :| 0 <= j < |rows[k + 1..]| && rows[k + 1..][j] == r;
        assert rows[k + 1 + j] == r;
      }
    }
  }

  /** `rows` lists the mission's rows among the first `n`, newest first. */
  ghost predicate RowsOf(s: State, guid: Name, n: int, rows: seq<Change>) {
    && Descending(rows)
    && (forall r :: r in rows ==> r.id < n <= |s.changes| && r == s.changes[r.id] && r.guid == guid)
    && (forall i :: 0 <= i < n <= |s.changes| && s.changes[i].guid == guid ==> s.changes[i] in rows)
  }

  lemma {:induction false} RowsOfNext(s: State, guid: Name, n: nat, rows: seq<Change>)
    requires DenseIds(s) && n < |s.changes| && RowsOf(s, guid, n, rows)
    ensures RowsOf(s, guid, n + 1, if s.changes[n].guid == guid then [s.changes[n]] + rows else rows)
  {
    assert s.changes[n].id == n;
    var more := [s.changes[n]] + rows;
    forall k | 0 <= k < |rows|
      ensures more[k + 1] == rows[k] && rows[k].id < n
    {
      assert rows[k] in rows;
    }
    assert forall r :: r in more <==> r in rows || r == s.changes[n];
  }

  lemma {:induction false} MissionRowsUpTo(s: State, guid: Name, n: nat)
    requires DenseIds(s) && n <= |s.changes|
    ensures RowsOf(s, guid, n, MissionRows(s.changes[..n], guid))
  {
    if n > 0 {
      MissionRowsUpTo(s, guid, n - 1);
      assert s.changes[..n] == s.changes[..n - 1] + [s.changes[n - 1]];
      MissionRowsAppend(s.changes[..n - 1], s.changes[n - 1], guid);
      RowsOfNext(s, guid, n - 1, MissionRows(s.changes[..n - 1], guid));
    }
  }

  lemma MissionRowsSpec(s: State, guid: Name)
    requires DenseIds(s)
    ensures RowsOf(s, guid, |s.changes|, MissionRows(s.changes, guid))
  {
    MissionRowsUpTo(s, guid, |s.changes|);
    assert s.changes[..|s.changes|] == s.changes;
  }

  lemma PickFull(s: State, guid: Name, i: int)
    requires DenseIds(s)
    ensures HasId(LatestAdds(MissionRows(s.changes, guid), 0), i) <==> LatestAddAt(s, guid, i)
  {
    var rows := MissionRows(s.changes, guid);
    MissionRowsSpec(s, guid);
    LatestAddsSpec(rows, 0);
    assert rows[0..] == rows;
    if HasId(LatestAdds(rows, 0), i) {
      var r :| r in LatestAdds(rows, 0) && r.id == i;
      forall j | i < j < |s.changes| && s.changes[j].guid == guid
        ensures s.changes[j].content != s.changes[i].content
      {
        assert s.changes[j] in rows && s.changes[j].id == j;
      }
    }
    if LatestAddAt(s, guid, i) {
      assert s.changes[i] in rows && s.changes[i].id == i;
      assert PickIn(rows, s.changes[i]);
    }
  }

  lemma {:induction false} AsAddsAt(rows: seq<Change>, n: nat)
    requires AllContent(rows)
    ensures |AsAdds(rows)| == |rows|
    ensures n < |rows| ==> AsAdds(rows)[n] == AsAdd(rows[n])
    decreases |rows|
  {
    if rows != [] {
      AsAddsAt(rows[..|rows| - 1], n);
      assert n < |rows| ==> rows[n] in rows;
    }
  }

  /** The contents are the latest adds of the log. */
  lemma ContentsAre(s: State, guid: Name)
    requires LogInv(s) && guid in s.missions
    ensures var adds := LatestAdds(MissionRows(s.changes, guid), 0);
      AllContent(adds) && s.missions[guid].contents == AsAdds(adds)
  {
    ReplayIsLatestAdds(MissionRows(s.changes, guid));
  }

  /** In every reachable state an item is in the contents exactly when its latest change is
      an add. */
  lemma {:induction false} PresentIff(s: State, guid: Name, x: Content)
    requires LogInv(s) && guid in s.missions
    ensures Has(s.missions[guid], x) <==> exists i :: LatestAddAt(s, guid, i) && s.changes[i].content == Some(x)
  {
    var rows := MissionRows(s.changes, guid);
    var adds := LatestAdds(rows, 0);
    ContentsAre(s, guid);
    MissionRowsSpec(s, guid);
    assert rows[0..] == rows;
    LatestAddsSpec(rows, 0);
    if a :| a in s.missions[guid].contents && a.content == x {
      var n :| 0 <= n < |s.missions[guid].contents| && s.missions[guid].contents[n] == a;
      AsAddsAt(adds, n);
      assert adds[n] in adds;
      PickFull(s, guid, adds[n].id);
    }
    if i :| LatestAddAt(s, guid, i) && s.changes[i].content == Some(x) {
      PickFull(s, guid, i);
      var r :| r in adds && r.id == i;
      var n :| 0 <= n < |adds| && adds[n] == r;
      AsAddsAt(adds, n);
      assert s.missions[guid].contents[n].content == x;
    }
  }

  /** The latest add of every item in the mission is dated at or after its creation. */
  ghost predicate AddsDatedAfterCreation(s: State, guid: Name)
    requires guid in s.missions
  {
    forall i :: LatestAddAt(s, guid, i) ==> s.changes[i].timestamp >= s.missions[guid].createTime
  }

  /** An item's latest add is in the squashed view and newest there. */
  lemma {:induction false} LatestAddShown(s: State, guid: Name, rows: seq<Change>, i: int) returns (r: Change)
    requires LogInv(s) && guid in s.missions && AddsDatedAfterCreation(s, guid)
    requires IsSquashedView(s, Query(guid, ALL), rows) && LatestAddAt(s, guid, i)
    ensures r.id == i && PickIn(rows, r)
  {
    var q, c := Query(guid, ALL), s.changes[i];
    PresentIff(s, guid, c.content.value);
    assert Fated(s, q, i) == Merged(ContentKey(true, c.content.value, c.creator));
    assert Keeps(s, q, i);
    assert HasId(rows, i);
    r :| r in rows && r.id == i;
    assert ShownAs(s, q, r);
    forall t | t in rows && t.id > i
      ensures t.content != r.content
    {
      assert ShownAs(s, q, t);
    }
  }

  /** The newest add the squashed view shows of an item is the item's latest. */
  lemma PickIsLatestAdd(s: State, guid: Name, rows: seq<Change>, r: Change)
    requires LogInv(s) && guid in s.missions && AddsDatedAfterCreation(s, guid)
    requires IsSquashedView(s, Query(guid, ALL), rows) && PickIn(rows, r)
    ensures LatestAddAt(s, guid, r.id)
  {
    var q := Query(guid, ALL);
    assert ShownAs(s, q, r);
    PresentIff(s, guid, r.content.value);
    var k :| LatestAddAt(s, guid, k) && s.changes[k].content == r.content;
    var t := LatestAddShown(s, guid, rows, k);
    assert ShownAs(s, q, t);
  }

  ghost predicate SameItems(a: seq<ContentAdd>, b: seq<ContentAdd>) {
    |a| == |b| && forall n :: 0 <= n < |a| ==> a[n].content == b[n].content && a[n].creator == b[n].creator
  }

  /** The latest adds of the squashed view and of the log have the same ids. */
  lemma SquashKeepsLatestAdds(s: State, guid: Name, rows: seq<Change>)
    requires LogInv(s) && guid in s.missions && AddsDatedAfterCreation(s, guid)
    requires IsSquashedView(s, Query(guid, ALL), rows)
    ensures Ids(LatestAdds(rows, 0)) == Ids(LatestAdds(MissionRows(s.changes, guid), 0))
    ensures forall r :: r in LatestAdds(rows, 0) ==> PickIn(rows, r) && ShownAs(s, Query(guid, ALL), r)
    ensures forall r :: r in LatestAdds(MissionRows(s.changes, guid), 0) ==> 0 <= r.id < |s.changes| && r == s.changes[r.id]
  {
    var full := MissionRows(s.changes, guid);
    var a, b := LatestAdds(rows, 0), LatestAdds(full, 0);
    MissionRowsSpec(s, guid);
    assert rows[0..] == rows && full[0..] == full;
    LatestAddsSpec(rows, 0);
    LatestAddsSpec(full, 0);
    forall i
      ensures HasId(a, i) <==> HasId(b, i)
    {
      PickFull(s, guid, i);
      if HasId(a, i) {
        var r :| r in a && r.id == i;
        PickIsLatestAdd(s, guid, rows, r);
      }
      if HasId(b, i) {
        var r := LatestAddShown(s, guid, rows, i);
        assert r in a;
      }
    }
    SameIds(a, b, 1);
  }

  ghost predicate SameGroupAs(s: State, guid: Name, i: int, j: int)
    requires guid in s.missions
  {
    0 <= j < |s.changes| && Fated(s, Query(guid, ALL), j) == Fated(s, Query(guid, ALL), i)
  }

  /** No earlier add of an item by the creator of its latest add is dated later than that. */
  ghost predicate LatestAddsDatedLast(s: State, guid: Name)
    requires guid in s.missions
  {
    forall i, j | LatestAddAt(s, guid, i) && SameGroupAs(s, guid, i, j) ::
      s.changes[j].timestamp <= s.changes[i].timestamp
  }

  /** Replaying only the rows of the squashed view rebuilds the mission's contents: the same
      items, in the same order, with the same creators. */
  lemma ReplaySquashed(s: State, guid: Name, rows: seq<Change>)
    requires LogInv(s) && guid in s.missions && AddsDatedAfterCreation(s, guid)
    requires IsSquashedView(s, Query(guid, ALL), rows)
    ensures SameItems(Replay(rows), s.missions[guid].contents)
  {
    ReplayMatchesLength(s, guid, rows);
    forall n | 0 <= n < |Replay(rows)|
      ensures Replay(rows)[n].content == s.missions[guid].contents[n].content
      ensures Replay(rows)[n].creator == s.missions[guid].contents[n].creator
    {
      LatestAddsPaired(s, guid, rows, n);
      assert ShownAs(s, Query(guid, ALL), LatestAdds(rows, 0)[n]);
    }
  }

  lemma ReplayMatchesLength(s: State, guid: Name, rows: seq<Change>)
    requires LogInv(s) && guid in s.missions && AddsDatedAfterCreation(s, guid)
    requires IsSquashedView(s, Query(guid, ALL), rows)
    ensures |Replay(rows)| == |s.missions[guid].contents|
  {
    var a, b := LatestAdds(rows, 0), LatestAdds(MissionRows(s.changes, guid), 0);
    SquashKeepsLatestAdds(s, guid, rows);
    ReplayIsLatestAdds(rows);
    ContentsAre(s, guid);
    AsAddsAt(a, 0);
    AsAddsAt(b, 0);
    assert |a| == |Ids(a)| == |Ids(b)| == |b|;
  }

  /** The n-th items of the replay and of the contents come from rows with the same id. */
  lemma LatestAddsPaired(s: State, guid: Name, rows: seq<Change>, n: nat)
    requires LogInv(s) && guid in s.missions && AddsDatedAfterCreation(s, guid)
    requires IsSquashedView(s, Query(guid, ALL), rows) && n < |Replay(rows)|
    ensures |Replay(rows)| == |s.missions[guid].contents| == |LatestAdds(rows, 0)|
    ensures var r := LatestAdds(rows, 0)[n];
      && PickIn(rows, r) && 0 <= r.id < |s.changes| && s.changes[r.id].content.Some?
      && Replay(rows)[n] == AsAdd(r)
      && s.missions[guid].contents[n] == AsAdd(s.changes[r.id])
  {
    var a, b := LatestAdds(rows, 0), LatestAdds(MissionRows(s.changes, guid), 0);
    SquashKeepsLatestAdds(s, guid, rows);
    ReplayIsLatestAdds(rows);
    ContentsAre(s, guid);
    AsAddsAt(a, n);
    AsAddsAt(b, n);
    assert |a| == |Ids(a)| == |Ids(b)| == |b|;
    assert Ids(a)[n] == a[n].id && Ids(b)[n] == b[n].id;
    assert a[n] in a && b[n] in b;
  }

  lemma LatestAddsAgree(s: State, guid: Name, rows: seq<Change>, n: nat)
    requires LogInv(s) && guid in s.missions && AddsDatedAfterCreation(s, guid)
    requires IsSquashedView(s, Query(guid, ALL), rows) && n < |Replay(rows)|
    ensures |Replay(rows)| == |s.missions[guid].contents| == |LatestAdds(rows, 0)|
    ensures var r := LatestAdds(rows, 0)[n];
      && LatestAddAt(s, guid, r.id)
      && StandsFor(s, Query(guid, ALL), Fated(s, Query(guid, ALL), r.id), |s.changes|, r)
      && Replay(rows)[n].timestamp == r.timestamp
      && s.missions[guid].contents[n].timestamp == s.changes[r.id].timestamp
  {
    var a, b := LatestAdds(rows, 0), LatestAdds(MissionRows(s.changes, guid), 0);
    LatestAddsPaired(s, guid, rows, n);
    PickIsLatestAdd(s, guid, rows, a[n]);
    assert ShownAs(s, Query(guid, ALL), a[n]);
    assert 0 <= a[n].id < |s.changes| && Fated(s, Query(guid, ALL), a[n].id).Merged?;
  }

  /** The timestamps agree too, exactly when each item's latest add is the latest dated of
      its group. */
  lemma ReplaySquashedTimes(s: State, guid: Name, rows: seq<Change>)
    requires LogInv(s) && guid in s.missions && AddsDatedAfterCreation(s, guid)
    requires IsSquashedView(s, Query(guid, ALL), rows)
    ensures Replay(rows) == s.missions[guid].contents <==> LatestAddsDatedLast(s, guid)
  {
    var contents := s.missions[guid].contents;
    ReplaySquashed(s, guid, rows);
    if LatestAddsDatedLast(s, guid) {
      forall n | 0 <= n < |contents|
        ensures Replay(rows)[n].timestamp == contents[n].timestamp
      {
        LatestAddsAgree(s, guid, rows, n);
        DatedLast(s, guid, LatestAdds(rows, 0)[n]);
      }
    }
    if Replay(rows) == contents {
      forall i, j | LatestAddAt(s, guid, i) && SameGroupAs(s, guid, i, j)
        ensures s.changes[j].timestamp <= s.changes[i].timestamp
      {
        var r := LatestAddShown(s, guid, rows, i);
        LatestAddsSpec(rows, 0);
        assert rows[0..] == rows && r in LatestAdds(rows, 0);
        var n :| 0 <= n < |LatestAdds(rows, 0)| && LatestAdds(rows, 0)[n] == r;
        ReplayLength(rows);
        LatestAddsAgree(s, guid, rows, n);
      }
    }
  }

  lemma ReplayLength(rows: seq<Change>)
    ensures |Replay(rows)| == |LatestAdds(rows, 0)|
  {
    ReplayIsLatestAdds(rows);
    AsAddsAt(LatestAdds(rows, 0), 0);
  }

  lemma DatedLast(s: State, guid: Name, r: Change)
    requires guid in s.missions && LatestAddsDatedLast(s, guid) && LatestAddAt(s, guid, r.id)
    requires StandsFor(s, Query(guid, ALL), Fated(s, Query(guid, ALL), r.id), |s.changes|, r)
    ensures r.timestamp == s.changes[r.id].timestamp
  {
    var q := Query(guid, ALL);
    var j :| 0 <= j < |s.changes| && Fated(s, q, j) == Fated(s, q, r.id) && s.changes[j].timestamp == r.timestamp;
    assert SameGroupAs(s, guid, r.id, j);
  }

  /** Times never decrease along the ids of the mission. */
  ghost predicate TimesRise(s: State, guid: Name) {
    forall i, j :: 0 <= i < j < |s.changes| && s.changes[i].guid == guid && s.changes[j].guid == guid ==>
      s.changes[i].timestamp <= s.changes[j].timestamp
  }

  lemma RisingTimesDateLast(s: State, guid: Name)
    requires LogInv(s) && guid in s.missions && AddsDatedAfterCreation(s, guid) && TimesRise(s, guid)
    ensures LatestAddsDatedLast(s, guid)
  {
    forall i, j | LatestAddAt(s, guid, i) && SameGroupAs(s, guid, i, j)
      ensures s.changes[j].timestamp <= s.changes[i].timestamp
    {
      PresentIff(s, guid, s.changes[i].content.value);
      assert Fated(s, Query(guid, ALL), i).Merged?;
      SameGroup(s, Query(guid, ALL), i, j);
    }
  }

  /** With times that never decrease and nothing dated before the creation, replaying the
      squashed view gives back the contents, timestamps included. */
  lemma ReplaySquashedExactly(s: State, guid: Name, rows: seq<Change>)
    requires LogInv(s) && guid in s.missions && AddsDatedAfterCreation(s, guid) && TimesRise(s, guid)
    requires IsSquashedView(s, Query(guid, ALL), rows)
    ensures Replay(rows) == s.missions[guid].contents
  {
    RisingTimesDateLast(s, guid);
    ReplaySquashedTimes(s, guid, rows);
  }

  /** A mission created at 0 to which an item is added at 5, and again at 3. */
  ghost function BackdatedLog(guid: Name, name: Name, creator: Name, x: Content): seq<Event> {
    [Created(Mission(guid, name, creator, 0, [], false), 0),
     ContentAdded(guid, x, creator, 5, 1, None), ContentAdded(guid, x, creator, 3, 2, None)]
  }

  ghost function BackdatedState(guid: Name, name: Name, creator: Name, x: Content): State {
    State(map[guid := Mission(guid, name, creator, 0, [ContentAdd(x, 3, creator)], false)],
          [Change(0, CreateMission, guid, Some(name), None, creator, 0, 0, None, None, None),
           Change(1, AddContent, guid, Some(name), Some(x), creator, 5, 5, None, None, None),
           Change(2, AddContent, guid, Some(name), Some(x), creator, 3, 3, None, None, None)],
          3, map[], map[], {}, {})
  }

  lemma {:induction false} BackdatedReached(guid: Name, name: Name, creator: Name, x: Content)
    ensures Legit(BackdatedLog(guid, name, creator, x))
    ensures StateAfter(BackdatedLog(guid, name, creator, x)) == BackdatedState(guid, name, creator, x)
  {
    var events := BackdatedLog(guid, name, creator, x);
    LegitAppend([], events[0]);
    assert [] + [events[0]] == [events[0]];
    LegitAppend([events[0]], events[1]);
    assert [events[0]] + [events[1]] == [events[0], events[1]];
    LegitAppend([events[0], events[1]], events[2]);
    assert [events[0], events[1]] + [events[2]] == events;
    var s, t := StateAfter(events), BackdatedState(guid, name, creator, x);
    var once := [ContentAdd(x, 5, creator)];
    assert Without(once, x) == [] by {
      assert once[1..] == [] && once[..0] == [];
    }
    assert StateAfter([events[0], events[1]]).missions[guid].contents == once;
    assert s.changes == t.changes;
    assert s.missions[guid] == t.missions[guid];
    assert s.missions == t.missions;
  }

  /** Both adds are merged into one row. */
  lemma {:induction false} BackdatedGroup(guid: Name, name: Name, creator: Name, x: Content)
    ensures var s := BackdatedState(guid, name, creator, x);
      LatestAddAt(s, guid, 2) && !LatestAddAt(s, guid, 1) && !LatestAddAt(s, guid, 0) && SameGroupAs(s, guid, 2, 1)
  {
    var s := BackdatedState(guid, name, creator, x);
    assert s.missions[guid].contents[0].content == x;
    assert Has(s.missions[guid], x);
  }

  lemma {:induction false} BackdatedDates(guid: Name, name: Name, creator: Name, x: Content)
    ensures var s := BackdatedState(guid, name, creator, x);
      AddsDatedAfterCreation(s, guid) && !LatestAddsDatedLast(s, guid)
  {
    var s := BackdatedState(guid, name, creator, x);
    BackdatedGroup(guid, name, creator, x);
    assert s.changes[1].timestamp > s.changes[2].timestamp;
  }

  /** The squashed view dates the item 5, the contents 3. */
  lemma {:induction false} BackdatedAdd(guid: Name, name: Name, creator: Name, x: Content, rows: seq<Change>)
    requires IsSquashedView(BackdatedState(guid, name, creator, x), Query(guid, ALL), rows)
    ensures var s := BackdatedState(guid, name, creator, x);
      && AddsDatedAfterCreation(s, guid) && !LatestAddsDatedLast(s, guid)
      && s.missions[guid].contents == [ContentAdd(x, 3, creator)]
      && Replay(rows) == [ContentAdd(x, 5, creator)]
  {
    var s := BackdatedState(guid, name, creator, x);
    BackdatedReached(guid, name, creator, x);
    ReachableInv(BackdatedLog(guid, name, creator, x));
    BackdatedDates(guid, name, creator, x);
    ReplaySquashed(s, guid, rows);
    LatestAddsAgree(s, guid, rows, 0);
    BackdatedRow(guid, name, creator, x, LatestAdds(rows, 0)[0]);
  }

  lemma {:induction false} BackdatedRow(guid: Name, name: Name, creator: Name, x: Content, r: Change)
    requires var s, q := BackdatedState(guid, name, creator, x), Query(guid, ALL);
      LatestAddAt(s, guid, r.id) && StandsFor(s, q, Fated(s, q, r.id), |s.changes|, r)
    ensures r.timestamp == 5
  {
    var s, q := BackdatedState(guid, name, creator, x), Query(guid, ALL);
    BackdatedGroup(guid, name, creator, x);
    assert Fated(s, q, 1) == Fated(s, q, r.id) && s.changes[1].timestamp <= r.timestamp;
  }
}
