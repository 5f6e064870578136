/** Groups, who is a member of them in which direction, and which of their groups an identity
    has switched off. */
module Groups {
  import opened Common
  import opened EventLogs

  datatype Direction = In | Out

  datatype Membership = InOnly | OutOnly | Both {
    function Directions(): set<Direction> {
      match this
      case InOnly => {In}
      case OutOnly => {Out}
      case Both => {In, Out}
    }

    predicate Includes(d: Direction) {
      Both? || (InOnly? && d == In) || (OutOnly? && d == Out)
    }

    function Merge(other: Membership): Membership {
      if this == other then this else Both
    }
  }

  /** Merging memberships adds their directions up. */
  lemma MergeIsUnion(a: Membership, b: Membership)
    ensures a.Merge(b).Directions() == a.Directions() + b.Directions()
    ensures forall d :: a.Includes(d) <==> d in a.Directions()
  {
    forall d: Direction
      ensures d in a.Merge(b).Directions() <==> d in a.Directions() + b.Directions()
      ensures a.Includes(d) <==> d in a.Directions()
    {
      assert d == In || d == Out;
    }
  }

  /** A membership is its directions. */
  lemma SameDirections(a: Membership, b: Membership)
    requires a.Directions() == b.Directions()
    ensures a == b
  {
    assert In in a.Directions() <==> In in b.Directions();
    assert Out in a.Directions() <==> Out in b.Directions();
  }

  /** `Anon` is the group of identities without explicit memberships. */
  datatype GroupName = Anon | Named(name: Name)

  const WORD := 0x1_0000_0000

  datatype State = State(
    groups: map<GroupName, nat>,
    members: map<Name, map<GroupName, Membership>>,
    inactive: map<Name, set<GroupName>>,
    nextBitpos: nat)

  const FRESH := State(map[Anon := 0], map[], map[], 1)

  datatype Event =
    | Created(name: GroupName)
    | Deleted(name: GroupName)
    | MemberSet(identity: Name, group: GroupName, membership: Option<Membership>)
    | ActiveSet(identity: Name, off: set<GroupName>)

  function MembersOf(s: State, identity: Name): map<GroupName, Membership> {
    if identity in s.members then s.members[identity] else map[]
  }

  function Apply(s: State, e: Event): State {
    match e
    case Created(name) => s.(groups := s.groups[name := s.nextBitpos], nextBitpos := (s.nextBitpos + 1) % WORD)
    case Deleted(name) =>
      s.(groups := s.groups - {name},
         members := map i | i in s.members :: s.members[i] - {name},
         inactive := map i | i in s.inactive :: s.inactive[i] - {name})
    case MemberSet(identity, group, membership) =>
      var mine := MembersOf(s, identity);
      s.(members := s.members[identity := if membership.Some? then mine[group := membership.value] else mine - {group}])
    case ActiveSet(identity, off) => s.(inactive := s.inactive[identity := off])
  }

  /** Explicit memberships, or the anonymous group both ways when there are none. */
  function Effective(s: State, identity: Name): map<GroupName, Membership> {
    if MembersOf(s, identity) == map[] then map[Anon := Both] else MembersOf(s, identity)
  }

  function Off(s: State, identity: Name): set<GroupName> {
    if identity in s.inactive then s.inactive[identity] else {}
  }

  /** The groups routing uses for an identity, or for a connection without one. */
  function ActiveGroups(s: State, identity: Option<Name>, d: Direction): set<GroupName> {
    if identity.None? then {Anon}
    else
      var mine := Effective(s, identity.value);
      set g | g in mine && mine[g].Includes(d) && g !in Off(s, identity.value)
  }

  function NamesForBits(s: State, bits: set<nat>): set<GroupName> {
    set g | g in s.groups && s.groups[g] in bits
  }

  // ----- What the store writes -----

  predicate Enabled(s: State, e: Event) {
    match e
    case Created(name) => name != Anon && name !in s.groups
    case Deleted(name) => name != Anon && name in s.groups
    case MemberSet(_, group, _) => group in s.groups
    case ActiveSet(identity, off) => off < Effective(s, identity).Keys
  }

  ghost function StateAfter(events: seq<Event>): State {
    Fold(Apply, FRESH, events)
  }

  ghost predicate Legit(events: seq<Event>) {
    events != [] ==>
      Legit(events[..|events| - 1]) && Enabled(StateAfter(events[..|events| - 1]), events[|events| - 1])
  }

  lemma {:induction false} StateAppend(events: seq<Event>, e: Event)
    ensures StateAfter(events + [e]) == Apply(StateAfter(events), e)
    ensures Legit(events + [e]) <==> Legit(events) && Enabled(StateAfter(events), e)
  {
    FoldAppend(Apply, FRESH, events, e);
    assert (events + [e])[..|events|] == events;
  }

  // ----- Invariants of every run -----

  /** Memberships and switched-off sets name only groups that exist, and the anonymous group
      keeps bit zero. */
  ghost predicate NamesExist(s: State) {
    && Anon in s.groups && s.groups[Anon] == 0
    && (forall i :: i in s.members ==> s.members[i].Keys <= s.groups.Keys)
    && (forall i :: i in s.inactive ==> s.inactive[i] <= s.groups.Keys)
  }

  lemma EffectiveExist(s: State, identity: Name)
    requires NamesExist(s)
    ensures Effective(s, identity).Keys <= s.groups.Keys && Effective(s, identity) != map[]
  {
    assert Anon in map[Anon := Both];
  }

  lemma {:induction false} StepKeepsNames(s: State, e: Event)
    requires NamesExist(s) && Enabled(s, e)
    ensures NamesExist(Apply(s, e))
  {
    if e.ActiveSet? {
      EffectiveExist(s, e.identity);
    }
  }

  lemma {:induction false} NamesAlwaysExist(events: seq<Event>)
    requires Legit(events)
    ensures NamesExist(StateAfter(events))
  {
    if events != [] {
      NamesAlwaysExist(events[..|events| - 1]);
      StepKeepsNames(StateAfter(events[..|events| - 1]), events[|events| - 1]);
    }
  }

  /** How many groups were ever created. */
  ghost function Creations(events: seq<Event>): nat {
    if events == [] then 0
    else Creations(events[..|events| - 1]) + if events[|events| - 1].Created? then 1 else 0
  }

  /** The bit position the `i`-th event assigned. */
  ghost function AssignedBit(events: seq<Event>, i: nat): nat
    requires i < |events| && events[i].Created?
  {
    StateAfter(events[..i]).nextBitpos
  }

  lemma {:induction false} NextBit(events: seq<Event>)
    ensures StateAfter(events).nextBitpos == (Creations(events) + 1) % WORD
  {
    if events != [] {
      NextBit(events[..|events| - 1]);
    }
  }

  lemma {:induction false} CreationsBefore(events: seq<Event>, i: nat, j: nat)
    requires i <= j <= |events|
    ensures Creations(events[..i]) <= Creations(events[..j])
    decreases j - i
  {
    if i < j {
      CreationsBefore(events, i, j - 1);
      assert events[..j][..j - 1] == events[..j - 1];
    }
  }

  /** The number of the creation an event is, counted from one. */
  ghost function CreationNumber(events: seq<Event>, i: nat): nat
    requires i < |events| && events[i].Created?
  {
    Creations(events[..i]) + 1
  }

  lemma {:induction false} LaterCreation(events: seq<Event>, i: nat, j: nat)
    requires i < j < |events| && events[i].Created? && events[j].Created?
    ensures CreationNumber(events, i) < CreationNumber(events, j) <= Creations(events)
  {
    CreationsBefore(events, i + 1, j);
    CreationsBefore(events, j + 1, |events|);
    assert events[..i + 1][..i] == events[..i] && events[..j + 1][..j] == events[..j] && events[..|events|] == events;
  }

  lemma SameRemainder(a: nat, b: nat)
    requires a < b
    ensures a % WORD == b % WORD <==> (b - a) % WORD == 0
  {
  }

  /** Two creations get the same bit position exactly when their numbers differ by a multiple of
      two to the 32. */
  lemma {:induction false} BitsRepeatIff(events: seq<Event>, i: nat, j: nat)
    requires i < j < |events| && events[i].Created? && events[j].Created?
    ensures AssignedBit(events, i) == AssignedBit(events, j) <==>
            (CreationNumber(events, j) - CreationNumber(events, i)) % WORD == 0
  {
    NextBit(events[..i]);
    NextBit(events[..j]);
    LaterCreation(events, i, j);
    SameRemainder(CreationNumber(events, i), CreationNumber(events, j));
  }

  /** So with fewer than two to the 32 creations no position is assigned twice, nor that of the
      anonymous group at all. */
  lemma {:induction false} BitsNeverRepeat(events: seq<Event>, i: nat, j: nat)
    requires Creations(events) < WORD && i <= j < |events| && events[i].Created? && events[j].Created?
    ensures 0 < AssignedBit(events, i) && 0 < AssignedBit(events, j)
    ensures i < j ==> AssignedBit(events, i) != AssignedBit(events, j)
  {
    BitNotZero(events, i);
    BitNotZero(events, j);
    if i < j {
      BitsRepeatIff(events, i, j);
      LaterCreation(events, i, j);
    }
  }

  lemma {:induction false} BitNotZero(events: seq<Event>, i: nat)
    requires Creations(events) < WORD && i < |events| && events[i].Created?
    ensures 0 < AssignedBit(events, i) == CreationNumber(events, i)
  {
    NextBit(events[..i]);
    CreationsBefore(events, i + 1, |events|);
    assert events[..i + 1][..i] == events[..i] && events[..|events|] == events;
  }

  // ----- Bits identify groups -----

  ghost predicate BitsDistinct(s: State) {
    forall g, h :: g in s.groups && h in s.groups && s.groups[g] == s.groups[h] ==> g == h
  }

  ghost predicate BitsBelow(s: State, n: nat) {
    forall g :: g in s.groups ==> s.groups[g] < n
  }

  lemma {:induction false} BitsStayDistinct(events: seq<Event>)
    requires Legit(events) && Creations(events) < WORD
    ensures BitsDistinct(StateAfter(events)) && BitsBelow(StateAfter(events), Creations(events) + 1)
  {
    if events != [] {
      var front, last := events[..|events| - 1], events[|events| - 1];
      BitsStayDistinct(front);
      NextBit(front);
      DistinctStep(StateAfter(front), last, Creations(front) + 1);
    }
  }

  lemma {:induction false} DistinctStep(s: State, e: Event, n: nat)
    requires BitsDistinct(s) && BitsBelow(s, n) && Enabled(s, e) && (e.Created? ==> s.nextBitpos == n)
    ensures BitsDistinct(Apply(s, e)) && BitsBelow(Apply(s, e), if e.Created? then n + 1 else n)
  {
  }

  // ----- Two to the 32 creations -----

  /** One group created and deleted `n` times. */
  ghost function Churn(name: Name, n: nat): seq<Event> {
    if n == 0 then [] else Churn(name, n - 1) + [Created(Named(name))] + [Deleted(Named(name))]
  }

  lemma {:induction false} CreationsAppend(events: seq<Event>, e: Event)
    ensures Creations(events + [e]) == Creations(events) + if e.Created? then 1 else 0
  {
    assert (events + [e])[..|events|] == events;
  }

  ghost predicate Churned(events: seq<Event>, n: nat) {
    Legit(events) && Creations(events) == n && StateAfter(events).groups == map[Anon := 0]
  }

  lemma {:induction false} ChurnNext(name: Name, before: seq<Event>, n: nat)
    requires Churned(before, n)
    ensures Churned(before + [Created(Named(name))] + [Deleted(Named(name))], n + 1)
  {
    var created, deleted := Created(Named(name)), Deleted(Named(name));
    StateAppend(before, created);
    StateAppend(before + [created], deleted);
    CreationsAppend(before, created);
    CreationsAppend(before + [created], deleted);
  }

  lemma {:induction false} ChurnLegit(name: Name, n: nat)
    ensures Churned(Churn(name, n), n)
  {
    if n > 0 {
      ChurnLegit(name, n - 1);
      ChurnNext(name, Churn(name, n - 1), n - 1);
    }
  }

  /** A log the store can have written whose last creation, number two to the 32, gets the
      anonymous group's bit. */
  lemma {:induction false} AnonymousBitShared(name: Name)
    ensures var events := Churn(name, WORD - 1) + [Created(Named(name))];
      var s := StateAfter(events);
      && Legit(events) && Creations(events) == WORD
      && Anon in s.groups && Named(name) in s.groups && s.groups[Anon] == s.groups[Named(name)] == 0
      && !BitsDistinct(s)
  {
    var before := Churn(name, WORD - 1);
    ChurnLegit(name, WORD - 1);
    NextBit(before);
    StateAppend(before, Created(Named(name)));
    CreationsAppend(before, Created(Named(name)));
  }

  ghost function BitsOf(s: State, names: set<GroupName>): set<nat> {
    set g | g in names && g in s.groups :: s.groups[g]
  }

  lemma {:induction false} NamesOfBits(s: State, names: set<GroupName>)
    requires BitsDistinct(s)
    ensures NamesForBits(s, BitsOf(s, names)) == names * s.groups.Keys
  {
    var bits := BitsOf(s, names);
    forall g | g in NamesForBits(s, bits)
      ensures g in names
    {
      var h :| h in names && h in s.groups && s.groups[h] == s.groups[g];
    }
    forall g | g in names * s.groups.Keys
      ensures g in NamesForBits(s, bits)
    {
      assert s.groups[g] in bits;
    }
  }

  /** What switching on `active` and off all else records, unless nothing would stay on. */
  function Activation(s: State, identity: Name, active: set<GroupName>): Option<Event> {
    var mine := Effective(s, identity).Keys;
    if mine * active == {} then None else Some(ActiveSet(identity, mine - active))
  }

  /** In every state a run of fewer than two to the 32 creations reaches, activating by bits is
      activating by names, existing or not. */
  lemma {:induction false} BitsActivateLikeNames(events: seq<Event>, identity: Name, names: set<GroupName>)
    requires Legit(events) && Creations(events) < WORD
    ensures var s := StateAfter(events);
      Activation(s, identity, NamesForBits(s, BitsOf(s, names))) == Activation(s, identity, names)
  {
    var s := StateAfter(events);
    NamesAlwaysExist(events);
    BitsStayDistinct(events);
    NamesOfBits(s, names);
    EffectiveExist(s, identity);
    var mine := Effective(s, identity).Keys;
    assert mine * (names * s.groups.Keys) == mine * names && mine - (names * s.groups.Keys) == mine - names;
  }

  // ----- Grants -----

  datatype Grant = Grant(name: GroupName, membership: Membership)

  ghost function DirectionsIn(s: State, identity: Name, g: GroupName): set<Direction> {
    if g in MembersOf(s, identity) then MembersOf(s, identity)[g].Directions() else {}
  }

  /** The directions a list of grants gives for a group. */
  ghost function Granted(grants: seq<Grant>, g: GroupName): set<Direction> {
    set i, d | 0 <= i < |grants| && grants[i].name == g && d in grants[i].membership.Directions() :: d
  }

  lemma {:induction false} GrantedAppend(grants: seq<Grant>, one: Grant, g: GroupName)
    ensures Granted(grants + [one], g) == Granted(grants, g) + if one.name == g then one.membership.Directions() else {}
  {
    var longer := grants + [one];
    forall d | d in Granted(grants, g)
      ensures d in Granted(longer, g)
    {
      var i :| 0 <= i < |grants| && grants[i].name == g && d in grants[i].membership.Directions();
      assert longer[i] == grants[i];
    }
    if one.name == g {
      assert longer[|grants|] == one;
    }
  }

  /** Neither order nor repetition matters: the same grants give the same directions. */
  lemma {:induction false} GrantedBySet(a: seq<Grant>, b: seq<Grant>, g: GroupName)
    requires forall x :: x in a <==> x in b
    ensures Granted(a, g) == Granted(b, g)
  {
    GrantedMonotone(a, b, g);
    GrantedMonotone(b, a, g);
  }

  lemma {:induction false} GrantedMonotone(a: seq<Grant>, b: seq<Grant>, g: GroupName)
    requires forall x :: x in a ==> x in b
    ensures Granted(a, g) <= Granted(b, g)
  {
    forall d | d in Granted(a, g)
      ensures d in Granted(b, g)
    {
      var i :| 0 <= i < |a| && a[i].name == g && d in a[i].membership.Directions();
      assert a[i] in b;
      var j :| 0 <= j < |b| && b[j] == a[i];
    }
  }

  /** The membership a grant leads to: directions add up. */
  function Merged(s: State, identity: Name, grant: Grant): Membership {
    var mine := MembersOf(s, identity);
    if grant.name in mine then mine[grant.name].Merge(grant.membership) else grant.membership
  }

  lemma {:induction false} GrantStep(s: State, identity: Name, grant: Grant, g: GroupName)
    ensures var after := Apply(s, MemberSet(identity, grant.name, Some(Merged(s, identity, grant))));
      && DirectionsIn(after, identity, g) ==
         DirectionsIn(s, identity, g) + (if grant.name == g then grant.membership.Directions() else {})
      && forall i :: i != identity ==> MembersOf(after, i) == MembersOf(s, i)
  {
    if grant.name in MembersOf(s, identity) {
      MergeIsUnion(MembersOf(s, identity)[grant.name], grant.membership);
    }
  }

  /** Memberships of one identity are determined by its directions in every group. */
  lemma {:induction false} MembersByDirections(s: State, t: State, identity: Name)
    requires forall g :: DirectionsIn(s, identity, g) == DirectionsIn(t, identity, g)
    ensures MembersOf(s, identity) == MembersOf(t, identity)
  {
    var a, b := MembersOf(s, identity), MembersOf(t, identity);
    forall g
      ensures g in a <==> g in b
      ensures g in a && g in b ==> a[g] == b[g]
    {
      assert DirectionsIn(s, identity, g) == DirectionsIn(t, identity, g);
      if g in a {
        assert In in a[g].Directions() || Out in a[g].Directions();
      }
      if g in b {
        assert In in b[g].Directions() || Out in b[g].Directions();
      }
      if g in a && g in b {
        SameDirections(a[g], b[g]);
      }
    }
    assert a.Keys == b.Keys;
  }

  /** The directions the three lists of an account give for a group. */
  ghost function Listed(both: seq<Name>, ins: seq<Name>, outs: seq<Name>, name: Name): set<Direction> {
    (if name in both then {In, Out} else {}) + (if name in ins then {In} else {}) + (if name in outs then {Out} else {})
  }

  ghost function GivenTo(merged: map<Name, Membership>, name: Name): set<Direction> {
    if name in merged then merged[name].Directions() else {}
  }

  method MergeList(merged: map<Name, Membership>, names: seq<Name>, membership: Membership)
    returns (r: map<Name, Membership>)
    ensures forall n :: GivenTo(r, n) == GivenTo(merged, n) + if n in names then membership.Directions() else {}
  {
    r := merged;
    for i := 0 to |names|
      invariant forall n :: GivenTo(r, n) == GivenTo(merged, n) + if n in names[..i] then membership.Directions() else {}
    {
      var name := names[i];
      assert names[..i + 1] == names[..i] + [name];
      if name in r {
        MergeIsUnion(r[name], membership);
        r := r[name := r[name].Merge(membership)];
      } else {
        r := r[name := membership];
      }
    }
    assert names[..|names|] == names;
  }

  /** A group named in several lists, or several times, gets the union. */
  method GrantsFrom(both: seq<Name>, ins: seq<Name>, outs: seq<Name>) returns (grants: map<Name, Membership>)
    ensures forall n :: GivenTo(grants, n) == Listed(both, ins, outs, n)
    ensures forall n :: n in grants <==> n in both || n in ins || n in outs
  {
    grants := MergeList(map[], both, Both);
    grants := MergeList(grants, ins, InOnly);
    grants := MergeList(grants, outs, OutOnly);
    forall n
      ensures n in grants <==> n in both || n in ins || n in outs
    {
      assert GivenTo(grants, n) == Listed(both, ins, outs, n);
      if n in grants {
        assert In in grants[n].Directions() || Out in grants[n].Directions();
      }
      if n in both || n in ins || n in outs {
        assert In in Listed(both, ins, outs, n) || Out in Listed(both, ins, outs, n);
      }
    }
  }

  // ----- The store -----

  datatype Error = InvalidName | AlreadyExists | NotFound(group: GroupName) | NoActiveGroup | LogFailed

  class GroupStore {
    var state: State
    const log: EventLog<Event>

    ghost predicate Valid()
      reads this, log
    {
      state == StateAfter(Events(log.lines)) && Legit(Events(log.lines)) && NamesExist(state)
    }

    constructor (state: State, log: EventLog<Event>)
      ensures this.state == state && this.log == log
    {
      this.state, this.log := state, log;
    }

    /** A restart: the state is rebuilt by replaying the file, and is the file's exactly if the
        file could be read or its events lead back to an empty store. */
    static method LoadOrCreate(file: LogFile<Event>) returns (store: Result<GroupStore, LogError>)
      ensures store.Ok? <==> Garbage !in LinesSeen(file)
      ensures store.Ok? ==>
        && fresh(store.value) && fresh(store.value.log)
        && store.value.log.lines == LinesIn(file)
        && store.value.state == StateAfter(Events(LinesSeen(file)))
        && (store.value.state == StateAfter(Events(store.value.log.lines)) <==>
            !file.Unreadable? || StateAfter(Events(file.hidden)) == FRESH)
        && (!file.Unreadable? && Legit(Events(store.value.log.lines)) ==> store.value.Valid())
    {
      var log, state := EventLog.OpenAndReplay(file, FRESH, Apply);
      if log.Err? { return Err(log.error); }
      var loaded := new GroupStore(state, log.value);
      if Legit(Events(loaded.log.lines)) {
        NamesAlwaysExist(Events(loaded.log.lines));
      }
      store := Ok(loaded);
    }

    method Record(e: Event) returns (ok: bool)
      requires Valid() && Enabled(state, e)
      modifies this`state, log
      ensures Valid()
      ensures ok ==> state == Apply(old(state), e)
      ensures !ok ==> state == old(state) && log.lines == old(log.lines)
    {
      ghost var events := Events(log.lines);
      ok := log.Append(e);
      if ok {
        EventsAppend(old(log.lines), e);
        StateAppend(events, e);
        StepKeepsNames(state, e);
        state := Apply(state, e);
      }
    }

    /** `wellFormed` says whether the name is not blank, not too long and free of control
        characters. */
    method Create(name: GroupName, wellFormed: bool) returns (r: Result<(), Error>)
      requires Valid()
      modifies this`state, log
      ensures Valid()
      ensures r == Err(InvalidName) <==> !wellFormed || name == Anon
      ensures r == Err(AlreadyExists) <==> wellFormed && name != Anon && name in old(state).groups
      ensures r.Ok? ==>
        state == old(state).(groups := old(state).groups[name := old(state).nextBitpos], nextBitpos := state.nextBitpos)
      ensures r.Ok? ==> state.nextBitpos == if old(state).nextBitpos == 0xffff_ffff then 0 else old(state).nextBitpos + 1
      ensures r.Err? ==> state == old(state)
    {
      if !wellFormed || name == Anon { return Err(InvalidName); }
      if name in state.groups { return Err(AlreadyExists); }
      NextBit(Events(log.lines));
      var ok := Record(Created(name));
      r := if ok then Ok(()) else Err(LogFailed);
    }

    /** After a delete nobody is a member of the group or has it switched off. */
    method Delete(name: GroupName) returns (r: Result<(), Error>)
      requires Valid()
      modifies this`state, log
      ensures Valid()
      ensures name == Anon ==> r == Err(InvalidName)
      ensures r == Err(NotFound(name)) <==> name != Anon && name !in old(state).groups
      ensures r.Ok? ==>
        && state.groups == old(state).groups - {name} && state.nextBitpos == old(state).nextBitpos
        && (forall i :: MembersOf(state, i) == MembersOf(old(state), i) - {name})
        && forall i :: Off(state, i) == Off(old(state), i) - {name}
      ensures r.Err? ==> state == old(state)
    {
      if name == Anon { return Err(InvalidName); }
      if name !in state.groups { return Err(NotFound(name)); }
      var ok := Record(Deleted(name));
      r := if ok then Ok(()) else Err(LogFailed);
    }

    /** Afterwards the identity is a member of the group exactly if a membership was given, and then
        with that one; all else is as before. */
    method SetMember(group: GroupName, identity: Name, membership: Option<Membership>) returns (r: Result<(), Error>)
      requires Valid()
      modifies this`state, log
      ensures Valid()
      ensures r == Err(NotFound(group)) <==> group !in old(state).groups
      ensures r.Ok? ==>
        && (group in MembersOf(state, identity) <==> membership.Some?)
        && (membership.Some? ==> MembersOf(state, identity)[group] == membership.value)
        && MembersOf(state, identity) - {group} == MembersOf(old(state), identity) - {group}
        && (forall i :: i != identity ==> MembersOf(state, i) == MembersOf(old(state), i))
        && state == old(state).(members := state.members)
      ensures r.Err? ==> state == old(state)
    {
      if group !in state.groups { return Err(NotFound(group)); }
      var ok := Record(MemberSet(identity, group, membership));
      r := if ok then Ok(()) else Err(LogFailed);
    }

    method FirstMissing(grants: seq<Grant>) returns (missing: Option<GroupName>)
      ensures missing.None? <==> forall i :: 0 <= i < |grants| ==> grants[i].name in state.groups
      ensures missing.Some? ==> exists i :: IsFirstMissing(state, grants, i) && missing.value == grants[i].name
    {
      for i := 0 to |grants|
        invariant forall k :: 0 <= k < i ==> grants[k].name in state.groups
      {
        if grants[i].name !in state.groups {
          assert IsFirstMissing(state, grants, i);
          return Some(grants[i].name);
        }
      }
      return None;
    }

    /** An unknown group refuses the whole list. Otherwise, with every append made, each group
        has exactly the directions it had and those granted; with only some made, no others. */
    method GrantAll(identity: Name, grants: seq<Grant>) returns (r: Result<(), Error>)
      requires Valid()
      modifies this`state, log
      ensures Valid()
      ensures r.Err? && r.error.NotFound? <==> exists i :: 0 <= i < |grants| && grants[i].name !in old(state).groups
      ensures r.Err? && r.error.NotFound? ==> state == old(state)
      ensures r.Err? ==> r.error.NotFound? || r.error == LogFailed
      ensures r.Ok? ==> GrantedSoFar(old(state), state, identity, grants)
      ensures forall g :: NoneButGranted(old(state), state, identity, grants, g)
      ensures forall i :: i != identity ==> MembersOf(state, i) == MembersOf(old(state), i)
      ensures state.groups == old(state).groups && state.inactive == old(state).inactive
    {
      var missing := FirstMissing(grants);
      if missing.Some? { return Err(NotFound(missing.value)); }
      for k := 0 to |grants|
        invariant Valid() && state.groups == old(state).groups && state.inactive == old(state).inactive
        invariant GrantedSoFar(old(state), state, identity, grants[..k])
      {
        var grant := grants[k];
        ghost var before := state;
        var ok := Record(MemberSet(identity, grant.name, Some(Merged(state, identity, grant))));
        if !ok {
          SoFarBound(old(state), state, identity, grants, k);
          return Err(LogFailed);
        }
        GrantOneMore(old(state), before, identity, grants[..k], grant);
        assert grants[..k + 1] == grants[..k] + [grant];
      }
      assert grants[..|grants|] == grants;
      return Ok(());
    }

    /** Switches an identity's groups on and off; something stays on. */
    method SetActive(identity: Name, active: set<GroupName>) returns (r: Result<(), Error>)
      requires Valid()
      modifies this`state, log
      ensures Valid()
      ensures r == Err(NoActiveGroup) <==> Effective(old(state), identity).Keys * active == {}
      ensures r.Err? ==> state == old(state)
      ensures r.Ok? ==>
        && state == old(state).(inactive := state.inactive)
        && (forall d :: ActiveGroups(state, Some(identity), d) ==
             (set g | g in Effective(state, identity) && Effective(state, identity)[g].Includes(d) && g in active))
        && (exists d :: ActiveGroups(state, Some(identity), d) != {})
        && forall i, d :: i != identity ==> ActiveGroups(state, Some(i), d) == ActiveGroups(old(state), Some(i), d)
    {
      var mine := Effective(state, identity).Keys;
      if mine * active == {} { return Err(NoActiveGroup); }
      ghost var on :| on in mine * active;
      var ok := Record(ActiveSet(identity, mine - active));
      if !ok { return Err(LogFailed); }
      ghost var d := if Effective(state, identity)[on].Includes(In) then In else Out;
      assert on in ActiveGroups(state, Some(identity), d);
      return Ok(());
    }
  }

  ghost predicate IsFirstMissing(s: State, grants: seq<Grant>, i: int) {
    && 0 <= i < |grants| && grants[i].name !in s.groups
    && forall k :: 0 <= k < i ==> grants[k].name in s.groups
  }

  /** `now` is `start` with these grants of `identity` made. */
  ghost predicate GrantedSoFar(start: State, now: State, identity: Name, grants: seq<Grant>) {
    && (forall g :: DirectionsIn(now, identity, g) == DirectionsIn(start, identity, g) + Granted(grants, g))
    && forall i :: i != identity ==> MembersOf(now, i) == MembersOf(start, i)
  }

  /** No direction was lost, and none gained that was not granted. */
  ghost predicate NoneButGranted(start: State, now: State, identity: Name, grants: seq<Grant>, g: GroupName) {
    && DirectionsIn(start, identity, g) <= DirectionsIn(now, identity, g)
    && DirectionsIn(now, identity, g) <= DirectionsIn(start, identity, g) + Granted(grants, g)
  }

  lemma {:induction false} GrantOneMore(start: State, before: State, identity: Name, grants: seq<Grant>, grant: Grant)
    requires GrantedSoFar(start, before, identity, grants)
    ensures GrantedSoFar(start, Apply(before, MemberSet(identity, grant.name, Some(Merged(before, identity, grant)))),
                         identity, grants + [grant])
  {
    var after := Apply(before, MemberSet(identity, grant.name, Some(Merged(before, identity, grant))));
    forall g
      ensures DirectionsIn(after, identity, g) == DirectionsIn(start, identity, g) + Granted(grants + [grant], g)
    {
      GrantStep(before, identity, grant, g);
      GrantedAppend(grants, grant, g);
    }
  }

  lemma {:induction false} SoFarBound(start: State, now: State, identity: Name, grants: seq<Grant>, k: nat)
    requires k <= |grants| && GrantedSoFar(start, now, identity, grants[..k])
    ensures forall g :: NoneButGranted(start, now, identity, grants, g)
  {
    forall g
      ensures NoneButGranted(start, now, identity, grants, g)
    {
      GrantedMonotone(grants[..k], grants, g);
    }
  }

  /** So two lists with the same grants, in any order and however often, leave an identity with
      the same memberships. */
  lemma {:induction false} GrantsCommute(start: State, s: State, t: State, identity: Name, a: seq<Grant>, b: seq<Grant>)
    requires GrantedSoFar(start, s, identity, a) && GrantedSoFar(start, t, identity, b)
    requires forall x :: x in a <==> x in b
    ensures forall i :: MembersOf(s, i) == MembersOf(t, i)
  {
    forall g
      ensures DirectionsIn(s, identity, g) == DirectionsIn(t, identity, g)
    {
      GrantedBySet(a, b, g);
    }
    MembersByDirections(s, t, identity);
  }
}
