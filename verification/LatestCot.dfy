/** The latest event of each uid, for a bounded number of uids. */
module LatestCot {
  import opened Common

  const MAX_UIDS := 50_000

  datatype LatestEvent = LatestEvent(xml: Name, serverTime: int)

  type Events = map<Name, LatestEvent>

  predicate IsOldest(events: Events, uid: Name) {
    uid in events && forall k :: k in events ==> events[uid].serverTime <= events[k].serverTime
  }

  /** Recording an event under a bound of `max` uids. Which of several equally old uids goes is
      not determined. */
  ghost predicate Records(max: nat, before: Events, uid: Name, event: LatestEvent, after: Events) {
    if |before| >= max && uid !in before && before != map[]
    then exists oldest :: IsOldest(before, oldest) && after == (before - {oldest})[uid := event]
    else after == before[uid := event]
  }

  class LatestCot {
    var events: Events
    var dirty: bool
    /** Everything recorded so far. */
    ghost var history: seq<Relayed>

    ghost predicate Valid()
      reads this
    {
      Leads(MAX_UIDS, history, events)
    }

    constructor ()
      ensures Valid() && history == [] && events == map[] && !dirty
    {
      events, dirty, history := map[], false, [];
    }

    method Record(uid: Name, xml: Name, serverTime: int)
      requires Valid()
      modifies this
      ensures Valid() && dirty
      ensures history == old(history) + [Relayed(uid, LatestEvent(xml, serverTime))]
      ensures Records(MAX_UIDS, old(events), uid, LatestEvent(xml, serverTime), events)
      ensures |old(events)| <= MAX_UIDS ==> |events| <= MAX_UIDS
    {
      ghost var before := events;
      if |events| >= MAX_UIDS && uid !in events && events != map[] {
        var oldest := Oldest(events);
        events := events - {oldest};
        assert before.Keys == events.Keys + {oldest};
      }
      assert events[uid := LatestEvent(xml, serverTime)].Keys == events.Keys + {uid};
      events := events[uid := LatestEvent(xml, serverTime)];
      dirty := true;
      LeadsNext(MAX_UIDS, history, before, Relayed(uid, LatestEvent(xml, serverTime)), events);
      history := history + [Relayed(uid, LatestEvent(xml, serverTime))];
    }

    /** An answer is always the last event recorded for the uid. If times rose, there is one
        exactly if the uid is among the most recently recorded up to the bound. */
    method Get(uid: Name) returns (event: Option<LatestEvent>)
      requires Valid()
      ensures event.Some? ==> Last(history, uid) >= 0 && event.value == history[Last(history, uid)].event
      ensures TimesRise(history) ==> (event.Some? <==> Recent(MAX_UIDS, history, uid))
    {
      KeptIsLast(MAX_UIDS, history, events);
      if TimesRise(history) {
        CacheReflectsHistory(MAX_UIDS, history, events);
      }
      event := if uid in events then Some(events[uid]) else None;
    }
  }

  /** A scan for an entry of least time. */
  method Oldest(events: Events) returns (oldest: Name)
    requires events != map[]
    ensures IsOldest(events, oldest)
  {
    assert events.Keys == {} ==> events == map[];
    oldest :| oldest in events.Keys;
    var left := events.Keys - {oldest};
    while left != {}
      invariant left <= events.Keys && oldest in events
      invariant forall k :: k in events && k !in left ==> events[oldest].serverTime <= events[k].serverTime
      decreases left
    {
      var k :| k in left;
      if events[k].serverTime < events[oldest].serverTime { oldest := k; }
      left := left - {k};
    }
  }

  // ----- Histories -----

  /** An event relayed for `uid`. */
  datatype Relayed = Relayed(uid: Name, event: LatestEvent)

  ghost predicate TimesRise(h: seq<Relayed>) {
    forall i, j :: 0 <= i < j < |h| ==> h[i].event.serverTime < h[j].event.serverTime
  }

  /** Where `uid` was last recorded, or -1. */
  ghost function Last(h: seq<Relayed>, uid: Name): (k: int)
    ensures -1 <= k < |h| && (k >= 0 ==> h[k].uid == uid)
    ensures forall i :: k < i < |h| ==> h[i].uid != uid
  {
    if h == [] then -1 else if h[|h| - 1].uid == uid then |h| - 1 else Last(h[..|h| - 1], uid)
  }

  ghost function Uids(h: seq<Relayed>): set<Name> {
    set i | 0 <= i < |h| :: h[i].uid
  }

  /** The uids recorded since `uid` was. */
  ghost function Since(h: seq<Relayed>, uid: Name): set<Name> {
    set v | v in Uids(h) && Last(h, v) > Last(h, uid)
  }

  /** `uid` is among the `max` most recently recorded uids. */
  ghost predicate Recent(max: nat, h: seq<Relayed>, uid: Name) {
    uid in Uids(h) && |Since(h, uid)| < max
  }

  /** The cache is what the whole history says: the most recent uids, each with its last event. */
  ghost predicate Reflects(max: nat, h: seq<Relayed>, events: Events) {
    && (forall u :: u in events <==> Recent(max, h, u))
    && (forall u :: u in events ==> Last(h, u) >= 0 && events[u] == h[Last(h, u)].event)
    && |events| == if |Uids(h)| < max then |Uids(h)| else max
  }

  lemma {:induction false} LastOfUid(h: seq<Relayed>, u: Name)
    ensures u in Uids(h) <==> Last(h, u) >= 0
  {
  }

  lemma {:induction false} LastAppend(h: seq<Relayed>, r: Relayed, u: Name)
    ensures Last(h + [r], u) == if u == r.uid then |h| else Last(h, u)
  {
    assert (h + [r])[..|h|] == h;
  }

  lemma {:induction false} UidsAppend(h: seq<Relayed>, r: Relayed)
    ensures Uids(h + [r]) == Uids(h) + {r.uid}
  {
    var longer := h + [r];
    forall u | u in Uids(h) + {r.uid}
      ensures u in Uids(longer)
    {
      if u == r.uid {
        assert longer[|h|].uid == u;
      } else {
        var i :| 0 <= i < |h| && h[i].uid == u;
        assert longer[i].uid == u;
      }
    }
  }

  lemma {:induction false} SinceAppend(h: seq<Relayed>, r: Relayed, u: Name)
    requires u in Uids(h) || u == r.uid
    ensures Since(h + [r], u) == if u == r.uid then {} else Since(h, u) + {r.uid}
  {
    UidsAppend(h, r);
    forall v {
      LastAppend(h, r, v);
    }
  }

  lemma {:induction false} Smaller(a: set<Name>, b: set<Name>, x: Name)
    requires a <= b && x in b && x !in a
    ensures |a| < |b|
  {
    SubsetSize(a, b - {x});
  }

  /** Of two uids, the one recorded later has fewer recorded since. */
  lemma {:induction false} SinceShrinks(h: seq<Relayed>, u: Name, v: Name)
    requires u in Uids(h) && v in Uids(h) && Last(h, u) < Last(h, v)
    ensures |Since(h, v)| < |Since(h, u)|
  {
    Smaller(Since(h, v), Since(h, u), v);
  }

  lemma {:induction false} LastDiffer(h: seq<Relayed>, u: Name, v: Name)
    requires u in Uids(h) && u != v
    ensures Last(h, u) != Last(h, v)
  {
    LastOfUid(h, u);
  }

  /** Recording a uid the cache already holds leaves the others as recent as they were. */
  lemma {:induction false} KnownUid(max: nat, h: seq<Relayed>, r: Relayed, u: Name)
    requires Recent(max, h, r.uid) && u != r.uid
    ensures Recent(max, h + [r], u) <==> Recent(max, h, u)
  {
    UidsAppend(h, r);
    if u in Uids(h) {
      SinceAppend(h, r, u);
      LastDiffer(h, u, r.uid);
      if Last(h, r.uid) < Last(h, u) {
        SinceShrinks(h, r.uid, u);
      } else {
        assert Since(h, u) + {r.uid} == Since(h, u);
      }
    }
  }

  /** With room left, every uid of the history is recent, and stays so. */
  lemma {:induction false} RoomLeft(max: nat, h: seq<Relayed>, r: Relayed, u: Name)
    requires r.uid !in Uids(h) && |Uids(h)| < max && u in Uids(h)
    ensures Recent(max, h + [r], u) && Recent(max, h, u)
  {
    UidsAppend(h, r);
    SinceAppend(h, r, u);
    Smaller(Since(h, u), Uids(h), u);
  }

  /** A uid that is not recent was recorded before all that are. */
  lemma {:induction false} NotRecentIsOlder(max: nat, h: seq<Relayed>, v: Name, u: Name)
    requires !Recent(max, h, v) && Recent(max, h, u)
    ensures Last(h, v) < Last(h, u)
  {
    LastOfUid(h, v);
    LastOfUid(h, u);
    if Last(h, v) >= Last(h, u) {
      LastDiffer(h, u, v);
      SinceShrinks(h, u, v);
    }
  }

  /** In a full cache the oldest uid has exactly the others recorded since. */
  lemma {:induction false} OldestIsLast(max: nat, h: seq<Relayed>, events: Events, oldest: Name)
    requires Reflects(max, h, events) && |events| == max && oldest in events
    requires forall k :: k in events && k != oldest ==> Last(h, oldest) < Last(h, k)
    ensures |Since(h, oldest)| == max - 1
  {
    var others := events.Keys - {oldest};
    forall k | k in others
      ensures k in Since(h, oldest)
    {
      assert Recent(max, h, k);
    }
    SubsetSize(others, Since(h, oldest));
    assert Recent(max, h, oldest);
  }

  /** A new uid pushes out the oldest one and no other. */
  lemma {:induction false} NewUid(max: nat, h: seq<Relayed>, r: Relayed, events: Events, oldest: Name, u: Name)
    requires Reflects(max, h, events) && |events| == max && oldest in events && r.uid !in events
    requires forall k :: k in events && k != oldest ==> Last(h, oldest) < Last(h, k)
    requires u in Uids(h) && u != r.uid
    ensures Recent(max, h + [r], u) <==> Recent(max, h, u) && u != oldest
  {
    UidsAppend(h, r);
    SinceAppend(h, r, u);
    if Recent(max, h, u) {
      NotRecentIsOlder(max, h, r.uid, u);
      assert r.uid !in Since(h, u);
      OldestIsLast(max, h, events, oldest);
      if u != oldest {
        assert Recent(max, h, oldest);
        SinceShrinks(h, oldest, u);
      }
    } else {
      SubsetSize(Since(h, u), Since(h + [r], u));
    }
  }

  lemma {:induction false} OldestByTime(max: nat, h: seq<Relayed>, events: Events, oldest: Name, k: Name)
    requires Reflects(max, h, events) && TimesRise(h) && IsOldest(events, oldest) && k in events && k != oldest
    ensures Last(h, oldest) < Last(h, k)
  {
    assert Recent(max, h, k) && Recent(max, h, oldest);
    LastDiffer(h, k, oldest);
    assert events[oldest].serverTime <= events[k].serverTime;
  }

  lemma {:induction false} NewestIsRecent(max: nat, h: seq<Relayed>, r: Relayed)
    requires max > 0
    ensures Recent(max, h + [r], r.uid)
  {
    UidsAppend(h, r);
    SinceAppend(h, r, r.uid);
  }

  function Inserted(events: Events, r: Relayed): Events {
    events[r.uid := r.event]
  }

  ghost predicate RightAbout(max: nat, h: seq<Relayed>, events: Events, u: Name) {
    u in events <==> Recent(max, h, u)
  }

  lemma {:induction false} Reflected(max: nat, h: seq<Relayed>, events: Events, r: Relayed, after: Events)
    requires Reflects(max, h, events)
    requires forall u :: RightAbout(max, h + [r], after, u)
    requires forall u :: u in after ==> if u == r.uid then after[u] == r.event else u in events && after[u] == events[u]
    requires |after| == if |Uids(h + [r])| < max then |Uids(h + [r])| else max
    ensures Reflects(max, h + [r], after)
  {
    forall u | u in after
      ensures Last(h + [r], u) >= 0 && after[u] == (h + [r])[Last(h + [r], u)].event
    {
      LastAppend(h, r, u);
    }
    forall u
      ensures u in after <==> Recent(max, h + [r], u)
    {
      assert RightAbout(max, h + [r], after, u);
    }
  }

  lemma {:induction false} RecordKnown(max: nat, h: seq<Relayed>, events: Events, r: Relayed)
    requires Reflects(max, h, events) && max > 0 && r.uid in events
    ensures Reflects(max, h + [r], Inserted(events, r))
  {
    var after := Inserted(events, r);
    NewestIsRecent(max, h, r);
    forall u
      ensures RightAbout(max, h + [r], after, u)
    {
      if u != r.uid {
        KnownUid(max, h, r, u);
      }
    }
    assert after.Keys == events.Keys;
    UidsAppend(h, r);
    assert Recent(max, h, r.uid);
    assert Uids(h + [r]) == Uids(h);
    Reflected(max, h, events, r, after);
  }

  lemma {:induction false} SameSizeSame(a: set<Name>, b: set<Name>)
    requires a <= b && |a| == |b|
    ensures a == b
  {
    assert b == a + (b - a);
  }

  lemma {:induction false} AllCached(max: nat, h: seq<Relayed>, events: Events)
    requires Reflects(max, h, events) && |events| < max
    ensures events.Keys == Uids(h)
  {
    forall u | u in events.Keys
      ensures u in Uids(h)
    {
      assert Recent(max, h, u);
    }
    SameSizeSame(events.Keys, Uids(h));
  }

  lemma {:induction false} RoomRight(max: nat, h: seq<Relayed>, events: Events, r: Relayed, u: Name)
    requires events.Keys == Uids(h) && r.uid !in events && |events| < max
    ensures RightAbout(max, h + [r], Inserted(events, r), u)
  {
    UidsAppend(h, r);
    NewestIsRecent(max, h, r);
    if u in Uids(h) {
      RoomLeft(max, h, r, u);
    }
  }

  lemma {:induction false} RoomSize(h: seq<Relayed>, events: Events, r: Relayed)
    requires events.Keys == Uids(h) && r.uid !in events
    ensures |Inserted(events, r)| == |Uids(h + [r])| == |events| + 1
  {
    UidsAppend(h, r);
    assert Inserted(events, r).Keys == Uids(h) + {r.uid};
  }

  lemma {:induction false} RecordWithRoom(max: nat, h: seq<Relayed>, events: Events, r: Relayed)
    requires Reflects(max, h, events) && r.uid !in events && |events| < max
    ensures Reflects(max, h + [r], Inserted(events, r))
  {
    AllCached(max, h, events);
    RoomSize(h, events, r);
    forall u
      ensures RightAbout(max, h + [r], Inserted(events, r), u)
    {
      RoomRight(max, h, events, r, u);
    }
    Reflected(max, h, events, r, Inserted(events, r));
  }

  function Replaced(events: Events, oldest: Name, r: Relayed): Events {
    (events - {oldest})[r.uid := r.event]
  }

  lemma {:induction false} OldestFirst(max: nat, h: seq<Relayed>, events: Events, oldest: Name)
    requires Reflects(max, h, events) && TimesRise(h) && IsOldest(events, oldest)
    ensures forall k :: k in events && k != oldest ==> Last(h, oldest) < Last(h, k)
  {
    forall k | k in events && k != oldest
      ensures Last(h, oldest) < Last(h, k)
    {
      OldestByTime(max, h, events, oldest, k);
    }
  }

  lemma {:induction false} FullRight(max: nat, h: seq<Relayed>, events: Events, r: Relayed, oldest: Name, u: Name)
    requires Reflects(max, h, events) && max > 0 && r.uid !in events && |events| == max
    requires TimesRise(h) && IsOldest(events, oldest)
    ensures RightAbout(max, h + [r], Replaced(events, oldest, r), u)
  {
    OldestFirst(max, h, events, oldest);
    UidsAppend(h, r);
    NewestIsRecent(max, h, r);
    KeptIsRecent(max, h, events, u);
    if u in Uids(h) && u != r.uid {
      NewUid(max, h, r, events, oldest, u);
    }
  }

  lemma {:induction false} KeptIsRecent(max: nat, h: seq<Relayed>, events: Events, u: Name)
    requires Reflects(max, h, events)
    ensures u in events <==> Recent(max, h, u)
  {
  }

  lemma {:induction false} FullSize(max: nat, h: seq<Relayed>, events: Events, r: Relayed, oldest: Name)
    requires |events| == max <= |Uids(h)| && r.uid !in events && oldest in events
    ensures |Replaced(events, oldest, r)| == max <= |Uids(h + [r])|
  {
    var kept := events - {oldest};
    assert events.Keys == kept.Keys + {oldest};
    assert Replaced(events, oldest, r).Keys == kept.Keys + {r.uid};
    UidsAppend(h, r);
    SubsetSize(Uids(h), Uids(h + [r]));
  }

  lemma {:induction false} RecordFull(max: nat, h: seq<Relayed>, events: Events, r: Relayed, oldest: Name)
    requires Reflects(max, h, events) && max > 0 && r.uid !in events && |events| == max
    requires TimesRise(h) && IsOldest(events, oldest)
    ensures Reflects(max, h + [r], Replaced(events, oldest, r))
  {
    forall u
      ensures RightAbout(max, h + [r], Replaced(events, oldest, r), u)
    {
      FullRight(max, h, events, r, oldest, u);
    }
    FullSize(max, h, events, r, oldest);
    Reflected(max, h, events, r, Replaced(events, oldest, r));
  }

  /** One more event, later than all before it. */
  lemma {:induction false} RecordReflects(max: nat, h: seq<Relayed>, events: Events, r: Relayed, after: Events,
                                          longer: seq<Relayed>)
    requires Reflects(max, h, events) && max > 0 && TimesRise(h) && longer == h + [r]
    requires Records(max, events, r.uid, r.event, after)
    ensures Reflects(max, longer, after)
  {
    if r.uid in events {
      RecordKnown(max, h, events, r);
    } else if |events| < max {
      RecordWithRoom(max, h, events, r);
    } else {
      var oldest :| IsOldest(events, oldest) && after == (events - {oldest})[r.uid := r.event];
      RecordFull(max, h, events, r, oldest);
    }
  }

  lemma {:induction false} EmptyReflects(max: nat)
    ensures Reflects(max, [], map[])
  {
    assert Uids([]) == {};
  }

  lemma {:induction false} RiseBefore(h: seq<Relayed>, n: nat)
    requires TimesRise(h) && n <= |h|
    ensures TimesRise(h[..n])
  {
  }

  /** The caches a history of events can lead to. */
  ghost predicate Leads(max: nat, h: seq<Relayed>, events: Events) {
    if h == [] then events == map[]
    else
      var last := h[|h| - 1];
      exists before :: Leads(max, h[..|h| - 1], before) && Records(max, before, last.uid, last.event, events)
  }

  /** After every history with rising times the cache holds exactly the `max` uids recorded most
      recently, each with the last event recorded for it. */
  lemma {:induction false} CacheReflectsHistory(max: nat, h: seq<Relayed>, events: Events)
    requires max > 0 && TimesRise(h) && Leads(max, h, events)
    ensures Reflects(max, h, events)
    decreases |h|
  {
    if h == [] {
      EmptyReflects(max);
    } else {
      var front, last := h[..|h| - 1], h[|h| - 1];
      var before :| Leads(max, front, before) && Records(max, before, last.uid, last.event, events);
      RiseBefore(h, |h| - 1);
      assert h == front + [last];
      CacheReflectsHistory(max, front, before);
      RecordReflects(max, front, before, last, events, h);
    }
  }

  lemma {:induction false} LeadsNext(max: nat, h: seq<Relayed>, before: Events, r: Relayed, after: Events)
    requires Leads(max, h, before) && Records(max, before, r.uid, r.event, after)
    ensures Leads(max, h + [r], after)
  {
    var longer := h + [r];
    assert longer[..|longer| - 1] == h && longer[|longer| - 1] == r;
  }

  /** Whatever the times were, what is kept for a uid is the last event recorded for it. */
  lemma {:induction false} KeptIsLast(max: nat, h: seq<Relayed>, events: Events)
    requires Leads(max, h, events)
    ensures forall u :: u in events ==> Last(h, u) >= 0 && events[u] == h[Last(h, u)].event
    decreases |h|
  {
    if h != [] {
      var front, last := h[..|h| - 1], h[|h| - 1];
      var before :| Leads(max, front, before) && Records(max, before, last.uid, last.event, events);
      KeptIsLast(max, front, before);
      assert h == front + [last];
      forall u | u in events
        ensures Last(h, u) >= 0 && events[u] == h[Last(h, u)].event
      {
        LastAppend(front, last, u);
      }
    }
  }
}
