/** What the log of groups says, read off event by event: who is a member of what, what is
    switched off, which groups there are, and so what routing uses. */
module GroupLogs {
  import opened Common
  import opened EventLogs
  import opened Groups

  // ----- Reading the log -----

  /** Events that set or end the identity's membership in the group. */
  function OnMembership(identity: Name, group: GroupName): Event -> bool {
    (e: Event) => e == Deleted(group) || (e.MemberSet? && e.identity == identity && e.group == group)
  }

  /** The latest of them gives membership `m`. */
  ghost predicate MemberBy(events: seq<Event>, identity: Name, group: GroupName, m: Membership) {
    exists i :: Latest(events, OnMembership(identity, group), i) && events[i] == MemberSet(identity, group, Some(m))
  }

  /** Events that switch the identity's groups on and off, or end the group. */
  function OnActivity(identity: Name, group: GroupName): Event -> bool {
    (e: Event) => e == Deleted(group) || (e.ActiveSet? && e.identity == identity)
  }

  /** The latest of them switched the group off. */
  ghost predicate OffBy(events: seq<Event>, identity: Name, group: GroupName) {
    exists i :: Latest(events, OnActivity(identity, group), i) && events[i].ActiveSet? && group in events[i].off
  }

  function OnGroup(group: GroupName): Event -> bool {
    (e: Event) => e == Deleted(group) || e == Created(group)
  }

  /** The latest creation or deletion of the group is the creation at `i`. */
  ghost predicate CreatedSince(events: seq<Event>, group: GroupName, i: int) {
    Latest(events, OnGroup(group), i) && events[i] == Created(group)
  }

  // ----- One more event -----

  lemma {:induction false} MemberAppend(events: seq<Event>, e: Event, identity: Name, group: GroupName, m: Membership)
    ensures MemberBy(events + [e], identity, group, m) <==>
      if OnMembership(identity, group)(e) then e == MemberSet(identity, group, Some(m))
      else MemberBy(events, identity, group, m)
  {
    var about := OnMembership(identity, group);
    forall i
      ensures Latest(events + [e], about, i) <==> if about(e) then i == |events| else Latest(events, about, i)
    {
      LatestAppend(events, e, about, i);
    }
    if about(e) {
      assert Latest(events + [e], about, |events|);
    } else if i :| Latest(events, about, i) && events[i] == MemberSet(identity, group, Some(m)) {
      assert Latest(events + [e], about, i);
    }
  }

  lemma {:induction false} OffAppend(events: seq<Event>, e: Event, identity: Name, group: GroupName)
    ensures OffBy(events + [e], identity, group) <==>
      if OnActivity(identity, group)(e) then e.ActiveSet? && group in e.off else OffBy(events, identity, group)
  {
    var about := OnActivity(identity, group);
    forall i
      ensures Latest(events + [e], about, i) <==> if about(e) then i == |events| else Latest(events, about, i)
    {
      LatestAppend(events, e, about, i);
    }
    if about(e) {
      assert Latest(events + [e], about, |events|);
    } else if i :| Latest(events, about, i) && events[i].ActiveSet? && group in events[i].off {
      assert Latest(events + [e], about, i);
    }
  }

  // ----- The state is what the log says -----

  /** After every log an identity is a member of a group exactly if the latest event on that
      membership gave it one, and then with that membership. */
  lemma {:induction false} MembersReadLog(events: seq<Event>, identity: Name, group: GroupName, m: Membership)
    ensures var mine := MembersOf(StateAfter(events), identity);
      (group in mine && mine[group] == m) <==> MemberBy(events, identity, group, m)
  {
    if events != [] {
      var front, e := events[..|events| - 1], events[|events| - 1];
      assert events == front + [e];
      MembersReadLog(front, identity, group, m);
      MemberAppend(front, e, identity, group, m);
      StateAppend(front, e);
    }
  }

  /** The same of the groups an identity has switched off. */
  lemma {:induction false} OffReadsLog(events: seq<Event>, identity: Name, group: GroupName)
    ensures group in Off(StateAfter(events), identity) <==> OffBy(events, identity, group)
  {
    if events != [] {
      var front, e := events[..|events| - 1], events[|events| - 1];
      assert events == front + [e];
      OffReadsLog(front, identity, group);
      OffAppend(front, e, identity, group);
      StateAppend(front, e);
    }
  }

  ghost predicate MemberOfSome(events: seq<Event>, identity: Name) {
    exists group, m :: MemberBy(events, identity, group, m)
  }

  lemma {:induction false} SomeMembership(events: seq<Event>, identity: Name)
    ensures MembersOf(StateAfter(events), identity) != map[] <==> MemberOfSome(events, identity)
  {
    var mine := MembersOf(StateAfter(events), identity);
    if group, m :| MemberBy(events, identity, group, m) {
      MembersReadLog(events, identity, group, m);
    }
    if group :| group in mine {
      MembersReadLog(events, identity, group, mine[group]);
      assert MemberBy(events, identity, group, mine[group]);
    }
  }

  /** The membership covers the direction. */
  predicate Covers(m: Membership, d: Direction) {
    (d == In ==> m != OutOnly) && (d == Out ==> m != InOnly)
  }

  ghost predicate RoutesBy(events: seq<Event>, identity: Name, d: Direction, group: GroupName) {
    if MemberOfSome(events, identity)
    then exists m :: MemberBy(events, identity, group, m) && Covers(m, d)
    else group == Anon
  }

  /** What routing uses, from the log alone: the memberships that cover the direction, or the
      anonymous group if there are none at all, unless switched off. A connection without an
      identity is in the anonymous group. */
  lemma {:induction false} RoutingReadsLog(events: seq<Event>, identity: Name, d: Direction, group: GroupName)
    ensures group in ActiveGroups(StateAfter(events), Some(identity), d) <==>
            RoutesBy(events, identity, d, group) && !OffBy(events, identity, group)
    ensures ActiveGroups(StateAfter(events), None, d) == {Anon}
  {
    var s := StateAfter(events);
    var mine := MembersOf(s, identity);
    SomeMembership(events, identity);
    OffReadsLog(events, identity, group);
    if group in mine {
      MembersReadLog(events, identity, group, mine[group]);
    }
    if m :| MemberBy(events, identity, group, m) {
      MembersReadLog(events, identity, group, m);
    }
  }

  lemma {:induction false} CreatedAppend(events: seq<Event>, e: Event, group: GroupName, i: int)
    ensures CreatedSince(events + [e], group, i) <==>
      if e == Created(group) then i == |events|
      else e != Deleted(group) && CreatedSince(events, group, i)
  {
    LatestAppend(events, e, OnGroup(group), i);
  }

  /** A group exists, with this bit position, exactly if its latest creation was given the
      position and no deletion came after. The anonymous group has position zero for good. */
  lemma {:induction false} GroupsReadLog(events: seq<Event>, group: GroupName)
    requires Legit(events)
    ensures group != Anon ==> (group in StateAfter(events).groups <==> exists i :: CreatedSince(events, group, i))
    ensures forall i :: group != Anon && CreatedSince(events, group, i) ==>
      StateAfter(events).groups[group] == CreationNumber(events, i) % WORD
    ensures group == Anon ==> Anon in StateAfter(events).groups && StateAfter(events).groups[Anon] == 0
  {
    if events == [] {
      assert StateAfter(events).groups == map[Anon := 0];
    } else {
      var front, e := events[..|events| - 1], events[|events| - 1];
      assert events == front + [e];
      GroupsReadLog(front, group);
      StateAppend(front, e);
      NextBit(front);
      forall i
        ensures CreatedSince(events, group, i) <==>
                if e == Created(group) then i == |front| else e != Deleted(group) && CreatedSince(front, group, i)
      {
        CreatedAppend(front, e, group, i);
      }
      if i :| CreatedSince(front, group, i) && e != Deleted(group) && e != Created(group) {
        assert CreatedSince(events, group, i);
      }
      if e == Created(group) {
        assert CreatedSince(events, group, |front|);
      }
      forall i | group != Anon && CreatedSince(events, group, i)
        ensures StateAfter(events).groups[group] == CreationNumber(events, i) % WORD
      {
        SameNumber(front, e, i);
      }
    }
  }

  lemma SameNumber(events: seq<Event>, e: Event, i: int)
    ensures 0 <= i < |events| && events[i].Created? ==> CreationNumber(events + [e], i) == CreationNumber(events, i)
    ensures i == |events| && e.Created? ==> CreationNumber(events + [e], i) == Creations(events) + 1
  {
    if 0 <= i <= |events| {
      assert (events + [e])[..i] == events[..i];
      assert events[..|events|] == events;
    }
  }
}
