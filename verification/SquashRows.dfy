/** Which rows the squashed view shows, kind by kind, and with what dates. */
module SquashRows {
  import opened Common
  import opened Missions
  import opened ChangeLog
  import opened ChangeViews

  /** The row at `i` is one of the mission's, in the window. */
  ghost predicate InView(s: State, q: Query, i: int) {
    0 <= i < |s.changes| && s.changes[i].guid == q.guid && q.window.start <= s.changes[i].serverTime <= q.window.end
  }

  /** A row that stands for itself, unchanged. */
  ghost predicate AsItIs(s: State, rows: seq<Change>, i: int)
    requires 0 <= i < |s.changes|
  {
    forall r :: r in rows && r.id == i ==> r == s.changes[i]
  }

  lemma {:induction false} LatestCreateIs(changes: seq<Change>, guid: Name, t: Millis)
    ensures t >= LatestCreate(changes, guid) <==>
      forall j :: 0 <= j < |changes| && changes[j].guid == guid && changes[j].kind == CreateMission ==>
        changes[j].timestamp <= t
  {
    if changes != [] {
      var n := |changes| - 1;
      LatestCreateIs(changes[..n], guid, t);
      assert forall j :: 0 <= j < n ==> changes[..n][j] == changes[j];
    }
  }

  lemma {:induction false} ShownIffKept(s: State, q: Query, rows: seq<Change>, i: int)
    requires q.guid in s.missions && IsSquashedView(s, q, rows)
    ensures HasId(rows, i) <==> Keeps(s, q, i)
  {
    if r :| r in rows && r.id == i {
      ShownIsKept(s, q, r);
    }
  }

  /** Nothing outside the window or of another mission is shown. */
  lemma {:induction false} OnlyInView(s: State, q: Query, rows: seq<Change>, i: int)
    requires q.guid in s.missions && IsSquashedView(s, q, rows)
    ensures HasId(rows, i) ==> InView(s, q, i)
  {
    ShownIffKept(s, q, rows, i);
  }

  /** Creations and deletions: those not dated before any creation of the mission. */
  lemma {:induction false} LifecycleShownIff(s: State, q: Query, rows: seq<Change>, i: int)
    requires q.guid in s.missions && IsSquashedView(s, q, rows) && InView(s, q, i)
    requires s.changes[i].kind == CreateMission || s.changes[i].kind == DeleteMission
    ensures HasId(rows, i) <==>
      forall j :: 0 <= j < |s.changes| && s.changes[j].guid == q.guid && s.changes[j].kind == CreateMission ==>
        s.changes[j].timestamp <= s.changes[i].timestamp
    ensures AsItIs(s, rows, i)
  {
    ShownIffKept(s, q, rows, i);
    LatestCreateIs(s.changes, q.guid, s.changes[i].timestamp);
  }

  /** Map layers and feeds: all that are not dated before the mission. */
  lemma {:induction false} ListedShownIff(s: State, q: Query, rows: seq<Change>, i: int)
    requires q.guid in s.missions && IsSquashedView(s, q, rows) && InView(s, q, i)
    requires var c := s.changes[i];
      && c.content.None? && c.kind != CreateMission && c.kind != DeleteMission
      && (c.mapLayer.Some? || ((c.kind == CreateDataFeed || c.kind == DeleteDataFeed) && c.feed.Some?))
    ensures HasId(rows, i) <==> s.changes[i].timestamp >= s.missions[q.guid].createTime
    ensures AsItIs(s, rows, i)
  {
    ShownIffKept(s, q, rows, i);
  }

  // ----- Rows that are grouped -----

  /** Row `j` says the same of the same thing by the same creator as row `i`, and is in view and not
      dated before the mission. */
  ghost predicate SaysSame(s: State, q: Query, i: int, j: int)
    requires q.guid in s.missions && 0 <= i < |s.changes|
  {
    && InView(s, q, j) && s.changes[j].timestamp >= s.missions[q.guid].createTime
    && (s.changes[j].kind == AddContent <==> s.changes[i].kind == AddContent)
    && s.changes[j].content == s.changes[i].content && s.changes[j].creator == s.changes[i].creator
    && (s.changes[i].content.None? ==> s.changes[j].external == s.changes[i].external)
  }

  /** The row shown for `i` has the latest dates of all that say the same. */
  ghost predicate LatestDates(s: State, q: Query, rows: seq<Change>, i: int)
    requires q.guid in s.missions && 0 <= i < |s.changes|
  {
    forall r :: r in rows && r.id == i ==>
      && SameButTimes(r, s.changes[i])
      && (forall j :: SaysSame(s, q, i, j) ==>
            s.changes[j].timestamp <= r.timestamp && s.changes[j].serverTime <= r.serverTime)
      && (exists j :: SaysSame(s, q, i, j) && s.changes[j].timestamp == r.timestamp)
      && (exists j :: SaysSame(s, q, i, j) && s.changes[j].serverTime == r.serverTime)
  }

  ghost predicate IsContent(c: Change) {
    c.content.Some? && (c.kind == AddContent || c.kind == RemoveContent)
  }

  ghost predicate IsExternal(c: Change) {
    && c.content.None? && c.external.Some? && c.mapLayer.None? && c.feed.None?
    && (c.kind == AddContent || c.kind == RemoveContent)
  }

  /** Of content: adds of what is there and removals of what is not, the newest of those that say
      the same. */
  lemma {:induction false} ContentShownIff(s: State, q: Query, rows: seq<Change>, i: int)
    requires LogInv(s) && q.guid in s.missions && IsSquashedView(s, q, rows)
    requires InView(s, q, i) && IsContent(s.changes[i])
    ensures HasId(rows, i) <==>
      && s.changes[i].timestamp >= s.missions[q.guid].createTime
      && (s.changes[i].kind == AddContent <==>
            exists a :: a in s.missions[q.guid].contents && Some(a.content) == s.changes[i].content)
      && forall j :: j > i ==> !SaysSame(s, q, i, j)
    ensures LatestDates(s, q, rows, i)
  {
    ShownIffKept(s, q, rows, i);
    var x := s.changes[i].content.value;
    assert Has(s.missions[q.guid], x) <==> exists a :: a in s.missions[q.guid].contents && Some(a.content) == Some(x);
    if Fated(s, q, i).Merged? {
      forall j
        ensures Fated(s, q, j) == Fated(s, q, i) <==> SaysSame(s, q, i, j)
      {
        ContentGroup(s, q, i, j);
      }
      ShownDates(s, q, rows, i);
    }
  }

  lemma {:induction false} ContentGroup(s: State, q: Query, i: int, j: int)
    requires LogInv(s) && q.guid in s.missions && InView(s, q, i) && IsContent(s.changes[i]) && Fated(s, q, i).Merged?
    ensures Fated(s, q, j) == Fated(s, q, i) <==> SaysSame(s, q, i, j)
  {
    if 0 <= j < |s.changes| {
      assert RowOk(s, s.changes[j]);
    }
  }

  lemma {:induction false} ExternalGroup(s: State, q: Query, i: int, j: int)
    requires LogInv(s) && q.guid in s.missions && InView(s, q, i) && IsExternal(s.changes[i]) && Fated(s, q, i).Merged?
    ensures Fated(s, q, j) == Fated(s, q, i) <==> SaysSame(s, q, i, j)
  {
    if 0 <= j < |s.changes| {
      assert RowOk(s, s.changes[j]);
    }
  }

  lemma {:induction false} ShownDates(s: State, q: Query, rows: seq<Change>, i: int)
    requires q.guid in s.missions && IsSquashedView(s, q, rows) && InView(s, q, i) && Fated(s, q, i).Merged?
    requires forall j :: Fated(s, q, j) == Fated(s, q, i) <==> SaysSame(s, q, i, j)
    ensures LatestDates(s, q, rows, i)
  {
    forall r | r in rows && r.id == i
      ensures exists j :: SaysSame(s, q, i, j) && s.changes[j].timestamp == r.timestamp
      ensures exists j :: SaysSame(s, q, i, j) && s.changes[j].serverTime == r.serverTime
    {
      assert StandsFor(s, q, Fated(s, q, i), |s.changes|, r);
      var j :| 0 <= j < |s.changes| && Fated(s, q, j) == Fated(s, q, i) && s.changes[j].timestamp == r.timestamp;
      var k :| 0 <= k < |s.changes| && Fated(s, q, k) == Fated(s, q, i) && s.changes[k].serverTime == r.serverTime;
      assert SaysSame(s, q, i, j) && SaysSame(s, q, i, k);
    }
  }

  /** Of external data: the newest of those that say the same, whether it is there or not. */
  lemma {:induction false} ExternalShownIff(s: State, q: Query, rows: seq<Change>, i: int)
    requires LogInv(s) && q.guid in s.missions && IsSquashedView(s, q, rows)
    requires InView(s, q, i) && IsExternal(s.changes[i])
    ensures HasId(rows, i) <==>
      s.changes[i].timestamp >= s.missions[q.guid].createTime && forall j :: j > i ==> !SaysSame(s, q, i, j)
    ensures LatestDates(s, q, rows, i)
  {
    ShownIffKept(s, q, rows, i);
    if Fated(s, q, i).Merged? {
      forall j
        ensures Fated(s, q, j) == Fated(s, q, i) <==> SaysSame(s, q, i, j)
      {
        ExternalGroup(s, q, i, j);
      }
      ShownDates(s, q, rows, i);
    }
  }
}
