/** Failed-attempt limiting: at most so many failed credential checks per key and window, with
    a bounded table of keys. Times are points of the monotonic clock. */
module RateLimit {
  import opened Common

  const MAX_COUNT := 0xffff_ffff

  type Count = n: nat | n <= MAX_COUNT

  datatype Failures = Failures(windowStart: nat, count: Count)

  type Table = map<Name, Failures>

  datatype Limits = Limits(maxFailures: Count, window: nat, maxTracked: nat)

  /** Time since `start`; the clock's difference stops at zero. */
  function Since(start: nat, now: nat): nat {
    if now < start then 0 else now - start
  }

  predicate Live(l: Limits, entry: Failures, now: nat) {
    Since(entry.windowStart, now) < l.window
  }

  predicate Blocked(l: Limits, t: Table, key: Name, now: nat) {
    key in t && Live(l, t[key], now) && t[key].count >= l.maxFailures
  }

  function OnlyLive(l: Limits, t: Table, now: nat): Table {
    map k | k in t && Live(l, t[k], now) :: t[k]
  }

  function Counted(l: Limits, entry: Failures, now: nat): Failures {
    var current := if Live(l, entry, now) then entry else Failures(now, 0);
    current.(count := if current.count < MAX_COUNT then current.count + 1 else MAX_COUNT)
  }

  /** The table after a failure of `key`. */
  function Recorded(l: Limits, t: Table, key: Name, now: nat): Table {
    var full := key !in t && |t| >= l.maxTracked;
    var kept := if full then OnlyLive(l, t, now) else t;
    if full && |kept| >= l.maxTracked then kept
    else kept[key := Counted(l, if key in kept then kept[key] else Failures(now, 0), now)]
  }

  class AuthLimiter {
    const limits: Limits
    var failures: Table

    constructor (limits: Limits)
      ensures this.limits == limits && failures == map[]
    {
      this.limits := limits;
      failures := map[];
    }

    method IsBlockedAt(key: Name, now: nat) returns (blocked: bool)
      ensures blocked == Blocked(limits, failures, key, now)
    {
      if key !in failures { return false; }
      var entry := failures[key];
      blocked := Since(entry.windowStart, now) < limits.window && entry.count >= limits.maxFailures;
    }

    method RecordFailureAt(key: Name, now: nat)
      modifies this
      ensures failures == Recorded(limits, old(failures), key, now)
      ensures |old(failures)| <= limits.maxTracked ==> |failures| <= limits.maxTracked
      ensures forall k :: k in old(failures) && k != key && Live(limits, old(failures)[k], now) ==>
        k in failures && failures[k] == old(failures)[k]
    {
      if |failures| <= limits.maxTracked {
        RecordedSize(limits, failures, key, now);
      }
      if key !in failures && |failures| >= limits.maxTracked {
        failures := map k | k in failures && Live(limits, failures[k], now) :: failures[k];
        if |failures| >= limits.maxTracked { return; }
      }
      var entry := if key in failures then failures[key] else Failures(now, 0);
      if Since(entry.windowStart, now) >= limits.window {
        entry := Failures(now, 0);
      }
      failures := failures[key := entry.(count := if entry.count < MAX_COUNT then entry.count + 1 else MAX_COUNT)];
    }
  }

  // ----- The table is bounded -----

  lemma OnlyLiveSize(l: Limits, t: Table, now: nat)
    ensures |OnlyLive(l, t, now)| <= |t|
  {
    var kept := OnlyLive(l, t, now);
    assert kept.Keys <= t.Keys;
    SubsetSize(kept.Keys, t.Keys);
  }

  lemma RecordedSize(l: Limits, t: Table, key: Name, now: nat)
    requires |t| <= l.maxTracked
    ensures |Recorded(l, t, key, now)| <= l.maxTracked
  {
    OnlyLiveSize(l, t, now);
    var kept := if key !in t && |t| >= l.maxTracked then OnlyLive(l, t, now) else t;
    var entry := Counted(l, if key in kept then kept[key] else Failures(now, 0), now);
    assert kept[key := entry].Keys == kept.Keys + {key};
  }

  lemma {:induction false} SomeExpired(l: Limits, t: Table, now: nat)
    ensures |OnlyLive(l, t, now)| == |t| <==> forall k :: k in t ==> Live(l, t[k], now)
  {
    var kept := OnlyLive(l, t, now);
    if forall k :: k in t ==> Live(l, t[k], now) {
      assert kept.Keys == t.Keys;
    } else {
      var k :| k in t && !Live(l, t[k], now);
      assert kept.Keys <= t.Keys - {k};
      SubsetSize(kept.Keys, t.Keys - {k});
    }
  }

  /** In a bounded table a failing key is tracked exactly if it was, or there was room, or an
      expired entry makes room. Another key loses its entry only if that was expired and the room
      was needed. */
  lemma {:induction false} TrackedIff(l: Limits, t: Table, key: Name, now: nat)
    requires |t| <= l.maxTracked
    ensures var after := Recorded(l, t, key, now);
      && (key in after <==> key in t || |t| < l.maxTracked || exists k :: k in t && !Live(l, t[k], now))
      && forall k :: k != key ==>
           && (k in after <==> k in t && (key in t || |t| < l.maxTracked || Live(l, t[k], now)))
           && (k in after ==> after[k] == t[k])
  {
    SomeExpired(l, t, now);
    OnlyLiveSize(l, t, now);
  }

  // ----- Runs -----

  /** A failure of `key` recorded at `time`. */
  datatype Attempt = Attempt(key: Name, time: nat)

  /** The table after a run of failures from `t`. */
  function After(l: Limits, t: Table, run: seq<Attempt>): Table {
    if run == [] then t
    else
      var last := run[|run| - 1];
      Recorded(l, After(l, t, run[..|run| - 1]), last.key, last.time)
  }

  predicate InOrder(run: seq<Attempt>) {
    forall i, j :: 0 <= i < j < |run| ==> run[i].time <= run[j].time
  }

  lemma {:induction false} TableBounded(l: Limits, t: Table, run: seq<Attempt>)
    requires |t| <= l.maxTracked
    ensures |After(l, t, run)| <= l.maxTracked
  {
    if run != [] {
      var last := run[|run| - 1];
      TableBounded(l, t, run[..|run| - 1]);
      RecordedSize(l, After(l, t, run[..|run| - 1]), last.key, last.time);
    }
  }

  /** Whatever is recorded, by whom and how often: an entry stays while it is live, its window
      start does not move and its count does not fall. */
  lemma {:induction false} LiveKept(l: Limits, t: Table, run: seq<Attempt>, key: Name)
    requires key in t
    requires forall i :: 0 <= i < |run| ==> Live(l, t[key], run[i].time)
    ensures var after := After(l, t, run);
      && key in after && after[key].windowStart == t[key].windowStart
      && t[key].count <= after[key].count
  {
    if run != [] {
      var last := run[|run| - 1];
      LiveKept(l, t, run[..|run| - 1], key);
      assert Live(l, t[key], last.time);
    }
  }

  lemma {:induction false} StartStays(l: Limits, t: Table, run: seq<Attempt>, key: Name)
    requires InOrder(run) && key in t
    requires forall i :: 0 <= i < |run| && run[i].key == key ==> Live(l, t[key], run[i].time)
    ensures var after := After(l, t, run); key in after ==> after[key].windowStart == t[key].windowStart
  {
    if run != [] {
      var before, last := run[..|run| - 1], run[|run| - 1];
      StartStays(l, t, before, key);
      if last.key == key {
        forall i | 0 <= i < |before|
          ensures Live(l, t[key], before[i].time)
        {
          assert run[i].time <= last.time;
        }
        LiveKept(l, t, before, key);
      }
    }
  }

  /** No block outlasts its window: a key that has an entry is not blocked once the entry's
      window has passed, whatever was recorded meanwhile, unless the key failed again after it. */
  lemma {:induction false} BlockEnds(l: Limits, t: Table, run: seq<Attempt>, key: Name, now: nat)
    requires InOrder(run) && key in t
    requires forall i :: 0 <= i < |run| && run[i].key == key ==> Live(l, t[key], run[i].time)
    requires t[key].windowStart + l.window <= now
    ensures !Blocked(l, After(l, t, run), key, now)
  {
    StartStays(l, t, run, key);
  }

  // ----- How many failures get through -----

  /** At each of its failures the key was checked first and not blocked, and was tracked
      afterwards. */
  ghost predicate Admitted(l: Limits, run: seq<Attempt>, key: Name) {
    forall i :: 0 <= i < |run| && run[i].key == key ==> AdmittedAt(l, run, key, i)
  }

  ghost predicate AdmittedAt(l: Limits, run: seq<Attempt>, key: Name, i: int)
    requires 0 <= i < |run|
  {
    !Blocked(l, After(l, map[], run[..i]), key, run[i].time) && key in After(l, map[], run[..i + 1])
  }

  /** The times at which `key` failed. */
  ghost function Times(run: seq<Attempt>, key: Name): seq<nat> {
    if run == [] then []
    else
      var rest, last := Times(run[..|run| - 1], key), run[|run| - 1];
      if last.key == key then rest + [last.time] else rest
  }

  /** A failure as the limiter counted it: in the window that began at `start`, as the `rank`-th. */
  datatype Slot = Slot(time: nat, start: nat, rank: nat)

  /** One failure after another: next in the same window, or first in one that begins later. */
  ghost predicate Follows(l: Limits, a: Slot, b: Slot) {
    && a.time <= b.time
    && ((b.start == a.start && b.rank == a.rank + 1) || (b.rank == 1 && b.start == b.time >= a.start + l.window))
  }

  /** How many failures fit in a window; a limit of zero works like one. */
  function Allowed(l: Limits): (m: nat)
    ensures m >= 1
  {
    if l.maxFailures == 0 then 1 else l.maxFailures
  }

  ghost predicate Fits(l: Limits, s: Slot) {
    s.start <= s.time && 1 <= s.rank <= Allowed(l) && (s.rank == 1 ==> s.start == s.time)
  }

  ghost predicate LinkedAt(l: Limits, slots: seq<Slot>, i: int)
    requires 0 < i < |slots|
  {
    Follows(l, slots[i - 1], slots[i])
  }

  ghost predicate Windows(l: Limits, slots: seq<Slot>) {
    && (forall i :: 0 <= i < |slots| ==> Fits(l, slots[i]))
    && (slots != [] ==> slots[0].rank == 1)
    && forall i :: 0 < i < |slots| ==> LinkedAt(l, slots, i)
  }

  /** The key's entry is its last window; without one, that window has passed. */
  ghost predicate Agrees(l: Limits, t: Table, key: Name, slots: seq<Slot>, now: nat) {
    if slots == [] then key !in t
    else
      var last := slots[|slots| - 1];
      && last.time <= now
      && if key in t then t[key].windowStart == last.start && t[key].count == last.rank else last.start + l.window <= now
  }

  ghost predicate TimesOf(slots: seq<Slot>, times: seq<nat>) {
    |slots| == |times| && forall i :: 0 <= i < |slots| ==> slots[i].time == times[i]
  }

  lemma WindowsExtend(l: Limits, slots: seq<Slot>, s: Slot)
    requires Windows(l, slots) && Fits(l, s)
    requires if slots == [] then s.rank == 1 else Follows(l, slots[|slots| - 1], s)
    ensures Windows(l, slots + [s])
  {
    var longer := slots + [s];
    forall i | 0 < i < |longer|
      ensures LinkedAt(l, longer, i)
    {
      if i < |slots| {
        assert LinkedAt(l, slots, i);
      }
    }
  }

  /** The slot a failure at `now` takes. */
  ghost function NextSlot(l: Limits, t: Table, key: Name, now: nat): Slot {
    if key in t && Live(l, t[key], now) then Slot(now, t[key].windowStart, t[key].count + 1) else Slot(now, now, 1)
  }

  lemma OwnStep(l: Limits, t: Table, key: Name, slots: seq<Slot>, before: nat, now: nat)
    requires Windows(l, slots) && Agrees(l, t, key, slots, before) && before <= now
    requires !Blocked(l, t, key, now) && key in Recorded(l, t, key, now)
    ensures var s := NextSlot(l, t, key, now);
      Windows(l, slots + [s]) && Agrees(l, Recorded(l, t, key, now), key, slots + [s], now)
  {
    var s := NextSlot(l, t, key, now);
    if slots != [] {
      assert Fits(l, slots[|slots| - 1]);
    }
    WindowsExtend(l, slots, s);
  }

  lemma OtherStep(l: Limits, t: Table, key: Name, slots: seq<Slot>, before: nat, other: Name, now: nat)
    requires Windows(l, slots) && Agrees(l, t, key, slots, before) && before <= now && other != key
    ensures Agrees(l, Recorded(l, t, other, now), key, slots, now)
  {
    if slots != [] {
      assert Fits(l, slots[|slots| - 1]);
    }
  }

  ghost function LastTime(run: seq<Attempt>): nat {
    if run == [] then 0 else run[|run| - 1].time
  }

  /** Every run of failures of all keys, in order of time and starting from an empty table,
      fills windows one after another. */
  lemma {:induction false} RunFillsWindows(l: Limits, run: seq<Attempt>, key: Name) returns (slots: seq<Slot>)
    requires InOrder(run) && Admitted(l, run, key)
    ensures Windows(l, slots) && TimesOf(slots, Times(run, key))
    ensures Agrees(l, After(l, map[], run), key, slots, LastTime(run))
  {
    if run == [] {
      slots := [];
    } else {
      var n := |run| - 1;
      var before, last := run[..n], run[n];
      AdmittedBefore(l, run, key);
      slots := RunFillsWindows(l, before, key);
      if last.key == key {
        assert AdmittedAt(l, run, key, n) && run[..n + 1] == run;
        var t := After(l, map[], before);
        OwnStep(l, t, key, slots, LastTime(before), last.time);
        slots := slots + [NextSlot(l, t, key, last.time)];
      } else {
        OtherStep(l, After(l, map[], before), key, slots, LastTime(before), last.key, last.time);
      }
    }
  }

  lemma AdmittedBefore(l: Limits, run: seq<Attempt>, key: Name)
    requires run != [] && Admitted(l, run, key)
    ensures Admitted(l, run[..|run| - 1], key)
  {
    var before := run[..|run| - 1];
    forall i | 0 <= i < |before| && before[i].key == key
      ensures AdmittedAt(l, before, key, i)
    {
      assert AdmittedAt(l, run, key, i);
      assert before[..i] == run[..i] && before[..i + 1] == run[..i + 1];
    }
  }

  /** Every window has room for so many failures, so a new one begins soon. */
  lemma {:induction false} NextWindow(l: Limits, slots: seq<Slot>, i: nat, j: nat) returns (k: nat)
    requires Windows(l, slots) && i <= j < |slots| && j - i >= Allowed(l) - (slots[i].rank - 1)
    ensures i < k <= j && slots[k].rank == 1
    decreases j - i
  {
    assert Fits(l, slots[i]) && Fits(l, slots[i + 1]) && LinkedAt(l, slots, i + 1);
    if slots[i + 1].rank == 1 {
      k := i + 1;
    } else {
      k := NextWindow(l, slots, i + 1, j);
    }
  }

  lemma {:induction false} StartsApart(l: Limits, slots: seq<Slot>, i: nat, j: nat)
    requires Windows(l, slots) && i <= j < |slots|
    ensures slots[i].time <= slots[j].time
    ensures (slots[j].start == slots[i].start && slots[j].rank == slots[i].rank + (j - i))
         || slots[j].start >= slots[i].start + l.window
    decreases j - i
  {
    if i < j {
      StartsApart(l, slots, i, j - 1);
      assert LinkedAt(l, slots, j);
    }
  }

  /** Two failures with at least twice the limit, less two, between them are at least a window
      apart. */
  lemma {:induction false} FarApart(l: Limits, slots: seq<Slot>, i: nat)
    requires Windows(l, slots) && i + 2 * Allowed(l) - 1 < |slots|
    ensures slots[i + 2 * Allowed(l) - 1].time >= slots[i].time + l.window
  {
    var m := Allowed(l);
    assert Fits(l, slots[i]);
    var first := i;
    if slots[i].rank != 1 {
      first := NextWindow(l, slots, i, i + m - 1);
    }
    var second := NextWindow(l, slots, first, first + m);
    assert Fits(l, slots[first]) && Fits(l, slots[second]);
    StartsApart(l, slots, i, first);
    StartsApart(l, slots, first, second);
    StartsApart(l, slots, second, i + 2 * m - 1);
  }

  /** The failures of `run` that fall in the interval of a window's length from `from` on. */
  ghost function Inside(l: Limits, run: seq<Attempt>, key: Name, from: nat): set<int> {
    var times := Times(run, key);
    set i | 0 <= i < |times| && from <= times[i] < from + l.window
  }

  /** Any interval as long as a window, wherever it starts, admits at most twice the limit less
      one failed attempts of a key. */
  lemma {:induction false} AtMostTwiceLessOne(l: Limits, run: seq<Attempt>, key: Name, from: nat)
    requires InOrder(run) && Admitted(l, run, key)
    ensures |Inside(l, run, key, from)| <= 2 * Allowed(l) - 1
  {
    var times := Times(run, key);
    var slots := RunFillsWindows(l, run, key);
    var inside := Inside(l, run, key, from);
    if exists i :: i in inside {
      var first := Least(inside);
      var span := 2 * Allowed(l) - 1;
      forall i | i in inside
        ensures first <= i < first + span
      {
        if first + span <= i {
          FarApart(l, slots, first);
          StartsApart(l, slots, first + span, i);
        }
      }
      Narrow(inside, first, span);
    } else {
      assert inside == {};
    }
  }

  lemma {:induction false} Least(s: set<int>) returns (m: int)
    requires exists x :: x in s
    ensures m in s && forall x :: x in s ==> m <= x
  {
    var x :| x in s;
    var rest := s - {x};
    m := x;
    if exists y :: y in rest {
      var least := Least(rest);
      if least < x {
        m := least;
      }
    }
    forall y | y in s
      ensures m <= y
    {
      assert y == x || y in rest;
    }
  }

  lemma {:induction false} Narrow(s: set<int>, from: int, size: nat)
    requires forall x :: x in s ==> from <= x < from + size
    ensures |s| <= size
  {
    if size == 0 {
      forall x: int
        ensures x !in s
      {
        assert x in s ==> from <= x < from;
      }
      assert |s| == 0 by {
        assert s <= {};
      }
    } else {
      var last := from + size - 1;
      Narrow(s - {last}, from, size - 1);
      if last in s {
        assert s == (s - {last}) + {last};
      } else {
        assert s == s - {last};
      }
    }
  }

  // ----- The bound is reached -----

  /** The key has failed at `times`, was admitted each time, and has the table for itself. */
  ghost predicate Alone(l: Limits, run: seq<Attempt>, key: Name, entry: Failures, times: seq<nat>) {
    && InOrder(run) && Admitted(l, run, key)
    && After(l, map[], run) == map[key := entry] && Times(run, key) == times
  }

  lemma {:induction false} AdmittedNext(l: Limits, run: seq<Attempt>, key: Name, now: nat, longer: seq<Attempt>)
    requires Admitted(l, run, key) && longer == run + [Attempt(key, now)]
    requires !Blocked(l, After(l, map[], run), key, now) && key in After(l, map[], longer)
    ensures Admitted(l, longer, key)
  {
    forall i | 0 <= i < |longer| && longer[i].key == key
      ensures AdmittedAt(l, longer, key, i)
    {
      assert longer[..i] == run[..i];
      if i < |run| {
        assert AdmittedAt(l, run, key, i);
        assert longer[..i + 1] == run[..i + 1];
      } else {
        assert longer[..i + 1] == longer && run[..i] == run;
      }
    }
  }

  lemma {:induction false} RunNext(l: Limits, run: seq<Attempt>, key: Name, entry: Failures, now: nat, longer: seq<Attempt>)
    requires After(l, map[], run) == map[key := entry] && longer == run + [Attempt(key, now)]
    ensures After(l, map[], longer) == map[key := Counted(l, entry, now)]
    ensures Times(longer, key) == Times(run, key) + [now]
  {
    assert longer[..|run|] == run;
    assert After(l, map[], longer) == map[key := entry][key := Counted(l, entry, now)];
  }

  lemma {:induction false} OrderNext(run: seq<Attempt>, a: Attempt)
    requires InOrder(run) && LastTime(run) <= a.time
    ensures InOrder(run + [a]) && LastTime(run + [a]) == a.time
  {
  }

  lemma {:induction false} AloneNext(l: Limits, run: seq<Attempt>, key: Name, entry: Failures, times: seq<nat>, now: nat)
    requires Alone(l, run, key, entry, times) && LastTime(run) <= now
    requires !Blocked(l, map[key := entry], key, now)
    ensures Alone(l, run + [Attempt(key, now)], key, Counted(l, entry, now), times + [now])
    ensures LastTime(run + [Attempt(key, now)]) == now
  {
    var longer := run + [Attempt(key, now)];
    OrderNext(run, Attempt(key, now));
    RunNext(l, run, key, entry, now, longer);
    AdmittedNext(l, run, key, now, longer);
  }

  ghost function Repeated(time: nat, n: nat): seq<nat> {
    seq(n, _ => time)
  }

  lemma {:induction false} RepeatedNext(times: seq<nat>, time: nat, n: nat)
    requires n > 0
    ensures times + Repeated(time, n - 1) + [time] == times + Repeated(time, n)
  {
  }

  /** The entry after the `n`-th of some failures at one instant. */
  function Raised(entry: Failures, n: nat): Failures
    requires entry.count + n <= MAX_COUNT
  {
    entry.(count := entry.count + n)
  }

  lemma {:induction false} RaisedNext(l: Limits, key: Name, entry: Failures, now: nat, n: nat)
    requires n > 0 && Live(l, entry, now) && entry.count + n <= l.maxFailures
    ensures Counted(l, Raised(entry, n - 1), now) == Raised(entry, n)
    ensures !Blocked(l, map[key := Raised(entry, n - 1)], key, now)
  {
  }

  /** `n` more failures at one instant, while there is room. */
  lemma {:induction false} AloneBurst(l: Limits, run: seq<Attempt>, key: Name, entry: Failures, times: seq<nat>,
                                      now: nat, n: nat) returns (longer: seq<Attempt>)
    requires Alone(l, run, key, entry, times) && LastTime(run) <= now
    requires Live(l, entry, now) && entry.count + n <= l.maxFailures
    ensures Alone(l, longer, key, Raised(entry, n), times + Repeated(now, n))
    ensures LastTime(longer) <= now
  {
    if n == 0 {
      longer := run;
      assert times + Repeated(now, 0) == times;
    } else {
      longer := AloneBurst(l, run, key, entry, times, now, n - 1);
      RaisedNext(l, key, entry, now, n);
      AloneNext(l, longer, key, Raised(entry, n - 1), times + Repeated(now, n - 1), now);
      RepeatedNext(times, now, n);
      longer := longer + [Attempt(key, now)];
    }
  }

  lemma {:induction false} AloneFirst(l: Limits, key: Name)
    requires l.maxTracked > 0 && l.window > 0
    ensures Alone(l, [Attempt(key, 0)], key, Failures(0, 1), [0])
  {
    var run := [Attempt(key, 0)];
    assert run[..0] == [] && run[..1] == run;
    assert After(l, map[], run[..0]) == map[] && Times(run[..0], key) == [];
    assert AdmittedAt(l, run, key, 0);
  }

  ghost function Range(from: int, size: nat): (r: set<int>)
    ensures forall i :: i in r <==> from <= i < from + size
  {
    if size == 0 then {} else Range(from, size - 1) + {from + size - 1}
  }

  lemma {:induction false} RangeSize(from: int, size: nat)
    ensures |Range(from, size)| == size
  {
    if size > 0 {
      RangeSize(from, size - 1);
    }
  }

  /** A limit of zero lets one failure through. */
  lemma {:induction false} ZeroReached(l: Limits, key: Name)
    requires l.maxFailures == 0 && l.window > 1 && l.maxTracked > 0
    ensures var run := [Attempt(key, 0)]; InOrder(run) && Admitted(l, run, key) && Inside(l, run, key, 0) == {0}
  {
    AloneFirst(l, key);
  }

  lemma {:induction false} PositiveReached(l: Limits, key: Name) returns (run: seq<Attempt>)
    requires l.maxFailures > 0 && l.window > 1 && l.maxTracked > 0
    ensures InOrder(run) && Admitted(l, run, key)
    ensures |Inside(l, run, key, l.window - 1)| == 2 * l.maxFailures - 1
  {
    var m: nat, w := l.maxFailures, l.window;
    AloneFirst(l, key);
    run := AloneBurst(l, [Attempt(key, 0)], key, Failures(0, 1), [0], w - 1, m - 1);
    var early := [0] + Repeated(w - 1, m - 1);
    AloneNext(l, run, key, Failures(0, m), early, w);
    run := run + [Attempt(key, w)];
    run := AloneBurst(l, run, key, Failures(w, 1), early + [w], w, m - 1);
    CountInside(early + [w] + Repeated(w, m - 1), m, w);
  }

  /** For every limit and every window of at least two ticks there is a run in which an interval
      as long as a window admits twice the limit less one failures: one, then the rest of its
      window at its end, then a full window. */
  lemma {:induction false} BoundReached(l: Limits, key: Name) returns (run: seq<Attempt>, from: nat)
    requires l.window > 1 && l.maxTracked > 0
    ensures InOrder(run) && Admitted(l, run, key)
    ensures |Inside(l, run, key, from)| == 2 * Allowed(l) - 1
  {
    if l.maxFailures == 0 {
      ZeroReached(l, key);
      run, from := [Attempt(key, 0)], 0;
    } else {
      run := PositiveReached(l, key);
      from := l.window - 1;
    }
  }

  lemma {:induction false} CountInside(times: seq<nat>, m: nat, w: nat)
    requires m > 0 && w > 1 && times == [0] + Repeated(w - 1, m - 1) + [w] + Repeated(w, m - 1)
    ensures |set i | 0 <= i < |times| && w - 1 <= times[i] < w - 1 + w| == 2 * m - 1
  {
    forall i | 1 <= i < |times|
      ensures w - 1 <= times[i] < w - 1 + w
    {
      TimeAt(m, w, i);
    }
    AllButFirst(times, w - 1, w - 1 + w);
  }

  lemma {:induction false} TimeAt(m: nat, w: nat, i: nat)
    requires m > 0 && w > 1 && 1 <= i < 2 * m
    ensures var t := ([0] + Repeated(w - 1, m - 1) + [w] + Repeated(w, m - 1))[i]; t == w - 1 || t == w
  {
  }

  lemma {:induction false} AllButFirst(times: seq<nat>, low: nat, high: nat)
    requires times != [] && times[0] < low && forall i :: 1 <= i < |times| ==> low <= times[i] < high
    ensures |set i | 0 <= i < |times| && low <= times[i] < high| == |times| - 1
  {
    assert (set i | 0 <= i < |times| && low <= times[i] < high) == Range(1, |times| - 1);
    RangeSize(1, |times| - 1);
  }
}
