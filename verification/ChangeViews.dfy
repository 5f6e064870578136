/**
 `changes(guid, window, squashed)`: the full and the squashed view of a mission's changes,
 newest first.
 */
module ChangeViews {
  import opened Common
  import opened Missions
  import opened ChangeLog

  datatype Window = Window(start: Millis, end: Millis) {
    predicate Contains(t: Millis) {
      start <= t <= end
    }
  }

  const ALL := Window(I64_MIN, I64_MAX)

  /** A query for one mission's changes in a time window. */
  datatype Query = Query(guid: Name, window: Window)

  /** What rows are grouped by. */
  datatype Key =
    | ContentKey(isAdd: bool, content: Content, creator: Name)
    | ExternalKey(isAdd: bool, external: ExternalChange, creator: Name)

  /** What the squashed view does with a row. */
  datatype Fate = Dropped | Listed | Merged(key: Key)

  predicate Visible(q: Query, c: Change) {
    c.guid == q.guid && q.window.Contains(c.serverTime)
  }

  predicate Has(m: Mission, content: Content) {
    exists a :: a in m.contents && a.content == content
  }

  /** The time of the mission's latest creation. */
  function LatestCreate(changes: seq<Change>, guid: Name): Millis {
    if changes == [] then I64_MIN
    else
      var c, before := changes[|changes| - 1], LatestCreate(changes[..|changes| - 1], guid);
      if c.guid == guid && c.kind == CreateMission && c.timestamp > before then c.timestamp else before
  }

  function FateOf(m: Mission, latestCreate: Millis, c: Change): Fate {
    if c.kind == CreateMission || c.kind == DeleteMission then
      if c.timestamp >= latestCreate then Listed else Dropped
    else if c.timestamp < m.createTime then Dropped
    else if c.content.Some? then
      var isAdd := c.kind == AddContent;
      if isAdd != Has(m, c.content.value) then Dropped
      else Merged(ContentKey(isAdd, c.content.value, c.creator))
    else if c.mapLayer.Some? then Listed
    else if (c.kind == CreateDataFeed || c.kind == DeleteDataFeed) && c.feed.Some? then Listed
    else if c.external.Some? then Merged(ExternalKey(c.kind == AddContent, c.external.value, c.creator))
    else Dropped
  }

  // ----- What the views are -----

  ghost predicate Descending(rows: seq<Change>) {
    forall i, j :: 0 <= i < j < |rows| ==> rows[i].id > rows[j].id
  }

  ghost predicate DistinctIds(rows: seq<Change>) {
    forall i, j :: 0 <= i < j < |rows| ==> rows[i].id != rows[j].id
  }

  /** The full view: every visible row, newest first. */
  ghost predicate IsFullView(s: State, q: Query, rows: seq<Change>) {
    Descending(rows) && forall c :: c in rows <==> c in s.changes && Visible(q, c)
  }

  /** The fate of the row at position `i` of the log, if the query sees it. */
  ghost function Fated(s: State, q: Query, i: int): Fate
    requires q.guid in s.missions
  {
    if 0 <= i < |s.changes| && Visible(q, s.changes[i])
    then FateOf(s.missions[q.guid], LatestCreate(s.changes, q.guid), s.changes[i])
    else Dropped
  }

  /** The squashed view keeps a row that is never squashed, or the newest of its group. */
  ghost predicate Keeps(s: State, q: Query, i: int)
    requires q.guid in s.missions
  {
    var f := Fated(s, q, i);
    f.Listed? || (f.Merged? && forall j :: j > i ==> Fated(s, q, j) != f)
  }

  ghost predicate SameButTimes(a: Change, b: Change) {
    a == b.(id := a.id, timestamp := a.timestamp, serverTime := a.serverTime)
  }

  /** Nothing in the group `f` among the first `n` rows is newer or later than `r`. */
  ghost predicate Tops(s: State, q: Query, f: Fate, n: int, r: Change)
    requires q.guid in s.missions && 0 <= n <= |s.changes|
  {
    forall j :: 0 <= j < n && Fated(s, q, j) == f ==>
      j <= r.id && s.changes[j].timestamp <= r.timestamp && s.changes[j].serverTime <= r.serverTime
  }

  ghost predicate HasTimestamp(s: State, q: Query, f: Fate, n: int, t: Millis)
    requires q.guid in s.missions && 0 <= n <= |s.changes|
  {
    exists j :: 0 <= j < n && Fated(s, q, j) == f && s.changes[j].timestamp == t
  }

  ghost predicate HasServerTime(s: State, q: Query, f: Fate, n: int, t: Millis)
    requires q.guid in s.missions && 0 <= n <= |s.changes|
  {
    exists j :: 0 <= j < n && Fated(s, q, j) == f && s.changes[j].serverTime == t
  }

  /** `r` stands for the group `f` among the first `n` rows: the newest row's identity, with
      the greatest times of the group. */
  ghost predicate StandsFor(s: State, q: Query, f: Fate, n: int, r: Change)
    requires q.guid in s.missions
  {
    && 0 <= r.id < n <= |s.changes| && Fated(s, q, r.id) == f && SameButTimes(r, s.changes[r.id])
    && Tops(s, q, f, n, r) && HasTimestamp(s, q, f, n, r.timestamp) && HasServerTime(s, q, f, n, r.serverTime)
  }

  /** A row as the squashed view shows it. */
  ghost predicate ShownAs(s: State, q: Query, r: Change)
    requires q.guid in s.missions
  {
    && 0 <= r.id < |s.changes|
    && var f := Fated(s, q, r.id);
       if f.Merged? then StandsFor(s, q, f, |s.changes|, r) else f.Listed? && r == s.changes[r.id]
  }

  ghost predicate HasId(rows: seq<Change>, i: int) {
    exists r :: r in rows && r.id == i
  }

  /** The squashed view: newest first, exactly the rows that are kept. */
  ghost predicate IsSquashedView(s: State, q: Query, rows: seq<Change>)
    requires q.guid in s.missions
  {
    && Descending(rows)
    && (forall r :: r in rows ==> ShownAs(s, q, r))
    && (forall i :: Keeps(s, q, i) ==> HasId(rows, i))
  }

  lemma ShownIsKept(s: State, q: Query, r: Change)
    requires q.guid in s.missions && ShownAs(s, q, r)
    ensures Keeps(s, q, r.id)
  {
  }

  // ----- Sorting by descending id -----

  function InsertDesc(rows: seq<Change>, x: Change): seq<Change> {
    if rows == [] then [x]
    else if rows[0].id >= x.id then [rows[0]] + InsertDesc(rows[1..], x)
    else [x] + rows
  }

  function SortDesc(rows: seq<Change>): seq<Change> {
    if rows == [] then [] else InsertDesc(SortDesc(rows[..|rows| - 1]), rows[|rows| - 1])
  }

  lemma {:induction false} InsertDescSpec(rows: seq<Change>, x: Change)
    requires Descending(rows) && !HasId(rows, x.id)
    ensures Descending(InsertDesc(rows, x))
    ensures forall r :: r in InsertDesc(rows, x) <==> r in rows || r == x
  {
    if rows != [] && rows[0].id >= x.id {
      assert rows[0] in rows;
      assert rows == [rows[0]] + rows[1..];
      InsertDescSpec(rows[1..], x);
      forall r | r in InsertDesc(rows[1..], x)
        ensures r.id < rows[0].id
      {
      }
    }
  }

  lemma {:induction false} SortDescSpec(rows: seq<Change>)
    requires DistinctIds(rows)
    ensures Descending(SortDesc(rows)) && forall r :: r in SortDesc(rows) <==> r in rows
  {
    if rows != [] {
      var front, x := rows[..|rows| - 1], rows[|rows| - 1];
      assert rows == front + [x];
      SortDescSpec(front);
      InsertDescSpec(SortDesc(front), x);
    }
  }

  // ----- The code -----

  method FullView(s: State, q: Query) returns (rows: seq<Change>)
    requires LogInv(s)
    ensures IsFullView(s, q, rows)
  {
    var mine: seq<Change> := [];
    for n := 0 to |s.changes|
      invariant forall c :: c in mine <==> c in s.changes[..n] && Visible(q, c)
      invariant forall i :: 0 <= i < |mine| ==> mine[i].id < n
      invariant DistinctIds(mine)
    {
      var c := s.changes[n];
      assert s.changes[..n + 1] == s.changes[..n] + [c];
      if Visible(q, c) { mine := mine + [c]; }
    }
    assert s.changes[..|s.changes|] == s.changes;
    SortDescSpec(mine);
    rows := SortDesc(mine);
  }

  /** Rows of one group differ only in their id and times. */
  lemma SameGroup(s: State, q: Query, i: int, j: int)
    requires LogInv(s) && q.guid in s.missions
    requires Fated(s, q, i).Merged? && Fated(s, q, j) == Fated(s, q, i)
    ensures 0 <= i < |s.changes| && 0 <= j < |s.changes| && SameButTimes(s.changes[i], s.changes[j])
  {
    assert RowOk(s, s.changes[i]) && RowOk(s, s.changes[j]);
  }

  /** `max(id), max(timestamp), max(server time)`. */
  function Absorb(entry: Change, c: Change): Change {
    entry.(id := Max(entry.id, c.id), timestamp := Max(entry.timestamp, c.timestamp),
           serverTime := Max(entry.serverTime, c.serverTime))
  }

  lemma StandsOther(s: State, q: Query, f: Fate, n: int, r: Change)
    requires q.guid in s.missions && n < |s.changes| && StandsFor(s, q, f, n, r) && Fated(s, q, n) != f
    ensures StandsFor(s, q, f, n + 1, r)
  {
    var j :| 0 <= j < n && Fated(s, q, j) == f && s.changes[j].timestamp == r.timestamp;
    var k :| 0 <= k < n && Fated(s, q, k) == f && s.changes[k].serverTime == r.serverTime;
    assert 0 <= j < n + 1 && 0 <= k < n + 1;
  }

  lemma TimestampAbsorbed(s: State, q: Query, f: Fate, n: nat, t: Millis)
    requires q.guid in s.missions && n < |s.changes| && HasTimestamp(s, q, f, n, t) && Fated(s, q, n) == f
    ensures HasTimestamp(s, q, f, n + 1, Max(t, s.changes[n].timestamp))
  {
    var j :| 0 <= j < n && Fated(s, q, j) == f && s.changes[j].timestamp == t;
    var k := if s.changes[n].timestamp > t then n else j;
    assert Fated(s, q, k) == f;
  }

  lemma ServerTimeAbsorbed(s: State, q: Query, f: Fate, n: nat, t: Millis)
    requires q.guid in s.missions && n < |s.changes| && HasServerTime(s, q, f, n, t) && Fated(s, q, n) == f
    ensures HasServerTime(s, q, f, n + 1, Max(t, s.changes[n].serverTime))
  {
    var j :| 0 <= j < n && Fated(s, q, j) == f && s.changes[j].serverTime == t;
    var k := if s.changes[n].serverTime > t then n else j;
    assert Fated(s, q, k) == f;
  }

  lemma TopsAbsorbed(s: State, q: Query, f: Fate, n: nat, r: Change)
    requires q.guid in s.missions && n < |s.changes| && Tops(s, q, f, n, r) && s.changes[n].id == n
    ensures Tops(s, q, f, n + 1, Absorb(r, s.changes[n]))
  {
  }

  lemma StandsAbsorb(s: State, q: Query, f: Fate, n: int, r: Change)
    requires LogInv(s) && q.guid in s.missions && n < |s.changes|
    requires StandsFor(s, q, f, n, r) && f.Merged? && Fated(s, q, n) == f
    ensures StandsFor(s, q, f, n + 1, Absorb(r, s.changes[n]))
  {
    SameGroup(s, q, r.id, n);
    assert s.changes[n].id == n;
    TopsAbsorbed(s, q, f, n, r);
    TimestampAbsorbed(s, q, f, n, r.timestamp);
    ServerTimeAbsorbed(s, q, f, n, r.serverTime);
  }

  lemma StandsFirst(s: State, q: Query, n: int)
    requires LogInv(s) && q.guid in s.missions && 0 <= n < |s.changes|
    requires forall j :: 0 <= j < n ==> Fated(s, q, j) != Fated(s, q, n)
    ensures StandsFor(s, q, Fated(s, q, n), n + 1, s.changes[n])
  {
    assert s.changes[n].id == n;
  }

  /** The groups seen among the first `n` rows. */
  ghost predicate Grouped(s: State, q: Query, n: int, groups: map<Key, Change>)
    requires q.guid in s.missions
  {
    && (forall k :: k in groups ==> StandsFor(s, q, Merged(k), n, groups[k]))
    && (forall i :: 0 <= i < n && Fated(s, q, i).Merged? ==> Fated(s, q, i).key in groups)
  }

  /** The map once the row at `n` was put into its group. */
  ghost function WithRow(s: State, n: int, groups: map<Key, Change>, f: Fate): map<Key, Change>
    requires 0 <= n < |s.changes|
  {
    if !f.Merged? then groups
    else groups[f.key := if f.key in groups then Absorb(groups[f.key], s.changes[n]) else s.changes[n]]
  }

  lemma GroupStands(s: State, q: Query, n: int, groups: map<Key, Change>, k: Key)
    requires LogInv(s) && q.guid in s.missions && 0 <= n < |s.changes| && Grouped(s, q, n, groups)
    requires k in WithRow(s, n, groups, Fated(s, q, n))
    ensures StandsFor(s, q, Merged(k), n + 1, WithRow(s, n, groups, Fated(s, q, n))[k])
  {
    var f := Fated(s, q, n);
    if f != Merged(k) {
      StandsOther(s, q, Merged(k), n, groups[k]);
    } else if k in groups {
      StandsAbsorb(s, q, f, n, groups[k]);
    } else {
      StandsFirst(s, q, n);
    }
  }

  lemma GroupedStep(s: State, q: Query, n: int, groups: map<Key, Change>)
    requires LogInv(s) && q.guid in s.missions && 0 <= n < |s.changes| && Grouped(s, q, n, groups)
    ensures Grouped(s, q, n + 1, WithRow(s, n, groups, Fated(s, q, n)))
  {
    var f := Fated(s, q, n);
    var more := WithRow(s, n, groups, f);
    forall k | k in more
      ensures StandsFor(s, q, Merged(k), n + 1, more[k])
    {
      GroupStands(s, q, n, groups, k);
    }
    forall i | 0 <= i < n + 1 && Fated(s, q, i).Merged?
      ensures Fated(s, q, i).key in more
    {
      assert i < n ==> Fated(s, q, i).key in groups;
    }
  }

  /** The rows listed among the first `n`. */
  ghost predicate ListedUpTo(s: State, q: Query, n: int, rows: seq<Change>)
    requires q.guid in s.missions
  {
    && DistinctIds(rows)
    && (forall r :: r in rows ==> r.id < n <= |s.changes| && Fated(s, q, r.id).Listed? && r == s.changes[r.id])
    && (forall i :: 0 <= i < n && Fated(s, q, i).Listed? ==> s.changes[i] in rows)
  }

  ghost function WithListed(s: State, n: int, rows: seq<Change>, f: Fate): seq<Change>
    requires 0 <= n < |s.changes|
  {
    if f.Listed? then rows + [s.changes[n]] else rows
  }

  lemma ListedStep(s: State, q: Query, n: int, rows: seq<Change>)
    requires LogInv(s) && q.guid in s.missions && 0 <= n < |s.changes| && ListedUpTo(s, q, n, rows)
    ensures ListedUpTo(s, q, n + 1, WithListed(s, n, rows, Fated(s, q, n)))
  {
    assert s.changes[n].id == n;
    var more := rows + [s.changes[n]];
    forall i | 0 <= i < |rows|
      ensures rows[i].id < n && more[i] == rows[i]
    {
      assert rows[i] in rows;
    }
  }

  ghost predicate Pending(rest: map<Key, Change>, f: Fate) {
    f.Merged? && f.key in rest
  }

  /** The rows collected once the groups outside `rest` were added. */
  ghost predicate Collected(s: State, q: Query, rest: map<Key, Change>, rows: seq<Change>)
    requires q.guid in s.missions
  {
    && DistinctIds(rows)
    && (forall r :: r in rows ==> ShownAs(s, q, r) && !Pending(rest, Fated(s, q, r.id)))
    && (forall i :: Keeps(s, q, i) && !Pending(rest, Fated(s, q, i)) ==> HasId(rows, i))
  }

  lemma CollectStart(s: State, q: Query, groups: map<Key, Change>, rows: seq<Change>)
    requires LogInv(s) && q.guid in s.missions
    requires Sorted(s, q, |s.changes|, groups, rows)
    ensures Collecting(s, q, groups, rows)
  {
    forall i | Keeps(s, q, i) && !Pending(groups, Fated(s, q, i))
      ensures HasId(rows, i)
    {
      var f := Fated(s, q, i);
      assert s.changes[i].id == i;
    }
  }

  lemma CollectNext(s: State, q: Query, rest: map<Key, Change>, rows: seq<Change>, k: Key)
    requires q.guid in s.missions && Collected(s, q, rest, rows) && k in rest
    requires StandsFor(s, q, Merged(k), |s.changes|, rest[k])
    ensures Collected(s, q, rest - {k}, rows + [rest[k]])
  {
    var x := rest[k];
    var more := rows + [x];
    forall i | 0 <= i < |rows|
      ensures more[i] == rows[i] && rows[i].id != x.id
    {
      assert rows[i] in rows;
    }
    forall i | Keeps(s, q, i) && !Pending(rest - {k}, Fated(s, q, i))
      ensures HasId(more, i)
    {
      if Fated(s, q, i) == Merged(k) {
        assert i == x.id && x in more;
      } else {
        assert HasId(rows, i);
        var r :| r in rows && r.id == i;
        assert r in more;
      }
    }
  }

  /** The first `n` rows have been sorted into groups and listed rows. */
  ghost predicate Sorted(s: State, q: Query, n: int, groups: map<Key, Change>, lifecycle: seq<Change>)
    requires q.guid in s.missions
  {
    Grouped(s, q, n, groups) && ListedUpTo(s, q, n, lifecycle)
  }

  /** The groups of the first `n` rows, and the rows listed as they are. */
  ghost function GroupsUpTo(s: State, q: Query, n: nat): map<Key, Change>
    requires q.guid in s.missions && n <= |s.changes|
  {
    if n == 0 then map[] else WithRow(s, n - 1, GroupsUpTo(s, q, n - 1), Fated(s, q, n - 1))
  }

  ghost function ListedRows(s: State, q: Query, n: nat): seq<Change>
    requires q.guid in s.missions && n <= |s.changes|
  {
    if n == 0 then [] else WithListed(s, n - 1, ListedRows(s, q, n - 1), Fated(s, q, n - 1))
  }

  lemma {:induction false} AllGrouped(s: State, q: Query, n: nat)
    requires LogInv(s) && q.guid in s.missions && n <= |s.changes|
    ensures Grouped(s, q, n, GroupsUpTo(s, q, n))
  {
    if n > 0 {
      AllGrouped(s, q, n - 1);
      GroupedStep(s, q, n - 1, GroupsUpTo(s, q, n - 1));
    }
  }

  lemma {:induction false} AllListed(s: State, q: Query, n: nat)
    requires LogInv(s) && q.guid in s.missions && n <= |s.changes|
    ensures ListedUpTo(s, q, n, ListedRows(s, q, n))
  {
    if n > 0 {
      AllListed(s, q, n - 1);
      ListedStep(s, q, n - 1, ListedRows(s, q, n - 1));
    }
  }

  lemma {:induction false} AllSorted(s: State, q: Query, n: nat)
    requires LogInv(s) && q.guid in s.missions && n <= |s.changes|
    ensures Sorted(s, q, n, GroupsUpTo(s, q, n), ListedRows(s, q, n))
  {
    AllGrouped(s, q, n);
    AllListed(s, q, n);
  }

  /** One pass over the log sorts its rows into groups. */
  method GroupRows(s: State, q: Query) returns (groups: map<Key, Change>, lifecycle: seq<Change>)
    requires q.guid in s.missions
    ensures groups == GroupsUpTo(s, q, |s.changes|) && lifecycle == ListedRows(s, q, |s.changes|)
    ensures LogInv(s) ==> Sorted(s, q, |s.changes|, groups, lifecycle)
  {
    var mission, latestCreate := s.missions[q.guid], LatestCreate(s.changes, q.guid);
    groups, lifecycle := map[], [];
    for n := 0 to |s.changes|
      invariant groups == GroupsUpTo(s, q, n) && lifecycle == ListedRows(s, q, n)
    {
      var c := s.changes[n];
      if Visible(q, c) {
        match FateOf(mission, latestCreate, c) {
          case Dropped =>
          case Listed => lifecycle := lifecycle + [c];
          case Merged(key) => groups := groups[key := if key in groups then Absorb(groups[key], c) else c];
        }
      }
    }
    if LogInv(s) {
      AllSorted(s, q, |s.changes|);
    }
  }

  /** `keys` lists the keys of the map, each once. */
  ghost predicate Enumerates<K(!new), V>(m: map<K, V>, keys: seq<K>) {
    Distinct(keys) && forall k :: k in keys <==> k in m
  }

  ghost function ValuesAt<K, V>(m: map<K, V>, keys: seq<K>): seq<V>
    requires forall k :: k in keys ==> k in m
  {
    if keys == [] then [] else ValuesAt(m, keys[..|keys| - 1]) + [m[keys[|keys| - 1]]]
  }

  /** The values of a map, in whatever order the map gives them. */
  method Values<K(!new), V>(m: map<K, V>) returns (values: seq<V>, ghost keys: seq<K>)
    ensures Enumerates(m, keys) && values == ValuesAt(m, keys)
  {
    var rest := m.Keys;
    values, keys := [], [];
    while rest != {}
      invariant rest <= m.Keys && Distinct(keys)
      invariant forall k :: k in keys <==> k in m && k !in rest
      invariant values == ValuesAt(m, keys)
      decreases |rest|
    {
      var key :| key in rest;
      assert (keys + [key])[..|keys|] == keys;
      values, keys, rest := values + [m[key]], keys + [key], rest - {key};
    }
  }

  /** Some groups have been collected, the others still stand for their rows. */
  ghost predicate Collecting(s: State, q: Query, rest: map<Key, Change>, rows: seq<Change>)
    requires q.guid in s.missions
  {
    && (forall k :: k in rest ==> StandsFor(s, q, Merged(k), |s.changes|, rest[k]))
    && Collected(s, q, rest, rows)
  }

  lemma CollectingStep(s: State, q: Query, rest: map<Key, Change>, rows: seq<Change>, k: Key)
    requires q.guid in s.missions && Collecting(s, q, rest, rows) && k in rest
    ensures Collecting(s, q, rest - {k}, rows + [rest[k]])
  {
    CollectNext(s, q, rest, rows, k);
  }

  ghost function Remaining<K, V>(m: map<K, V>, keys: seq<K>): map<K, V> {
    m - (set k | k in keys)
  }

  lemma RemainingStep<K, V>(m: map<K, V>, rows: seq<V>, keys: seq<K>)
    requires keys != [] && Distinct(keys) && forall k :: k in keys ==> k in m
    ensures
      var front, key := keys[..|keys| - 1], keys[|keys| - 1];
      && Distinct(front) && (forall k :: k in front ==> k in m)
      && key in Remaining(m, front) && Remaining(m, front) - {key} == Remaining(m, keys)
      && rows + ValuesAt(m, front) + [Remaining(m, front)[key]] == rows + ValuesAt(m, keys)
  {
    var front, key := keys[..|keys| - 1], keys[|keys| - 1];
    assert keys == front + [key];
  }

  lemma {:induction false} CollectAll(s: State, q: Query, groups: map<Key, Change>, rows: seq<Change>, keys: seq<Key>)
    requires q.guid in s.missions && Collecting(s, q, groups, rows)
    requires Distinct(keys) && forall k :: k in keys ==> k in groups
    ensures Collecting(s, q, Remaining(groups, keys), rows + ValuesAt(groups, keys))
  {
    if keys == [] {
      assert Remaining(groups, keys) == groups && rows + [] == rows;
    } else {
      var front, key := keys[..|keys| - 1], keys[|keys| - 1];
      RemainingStep(groups, rows, keys);
      CollectAll(s, q, groups, rows, front);
      CollectingStep(s, q, Remaining(groups, front), rows + ValuesAt(groups, front), key);
    }
  }

  lemma SortCollected(s: State, q: Query, rows: seq<Change>)
    requires q.guid in s.missions && Collecting(s, q, map[], rows)
    ensures IsSquashedView(s, q, SortDesc(rows))
  {
    SortDescSpec(rows);
    forall i | Keeps(s, q, i)
      ensures HasId(SortDesc(rows), i)
    {
      assert HasId(rows, i);
    }
  }

  lemma SquashCorrect(s: State, q: Query, keys: seq<Key>)
    requires LogInv(s) && q.guid in s.missions && Enumerates(GroupsUpTo(s, q, |s.changes|), keys)
    ensures IsSquashedView(s, q, SortDesc(ListedRows(s, q, |s.changes|) + ValuesAt(GroupsUpTo(s, q, |s.changes|), keys)))
  {
    var groups, rows := GroupsUpTo(s, q, |s.changes|), ListedRows(s, q, |s.changes|);
    AllSorted(s, q, |s.changes|);
    CollectStart(s, q, groups, rows);
    CollectAll(s, q, groups, rows, keys);
    assert Remaining(groups, keys) == map[];
    SortCollected(s, q, rows + ValuesAt(groups, keys));
  }

  /** The groups come out of their map in no particular order; sorting by the distinct ids
      makes the result independent of it. */
  method SquashedView(s: State, q: Query) returns (rows: seq<Change>)
    requires LogInv(s) && q.guid in s.missions
    ensures IsSquashedView(s, q, rows)
  {
    var groups, lifecycle := GroupRows(s, q);
    ghost var keys;
    var values;
    values, keys := Values(groups);
    SquashCorrect(s, q, keys);
    rows := SortDesc(lifecycle + values);
  }
}
