/** The append-only backup of a log file, taken while the store goes on appending, what its whole
    lines replay to, and when a server starts from it. */
module Backup {
  import opened Common
  import opened EventLogs

  /** Two prefixes of the same sequence, by length. */
  lemma ShorterPrefix(a: seq<char>, b: seq<char>, whole: seq<char>)
    requires a <= whole && b <= whole && |a| <= |b|
    ensures a <= b
  {
  }

  lemma StillPrefix(copy: seq<char>, read: seq<char>, written: nat, later: seq<char>)
    requires |copy| + written <= |read| && copy <= later && read <= later
    ensures copy + read[|copy|..][..written] <= later
  {
  }

  /** A file and its copy. Between any two calls the pass makes, the store may append, and any
      call may fail. */
  class FilePair {
    var src: seq<char>
    var dest: Option<seq<char>>

    constructor (src: seq<char>, dest: Option<seq<char>>)
      ensures this.src == src && this.dest == dest
    {
      this.src, this.dest := src, dest;
    }

    /** What the copy holds; a copy that does not exist holds nothing. */
    function Copy(): seq<char>
      reads this
    {
      if dest.Some? then dest.value else []
    }

    method OthersAppend()
      modifies this`src
      ensures old(src) <= src
    {
      var more: seq<char> := *;
      src := src + more;
    }

    method AppendToCopy(bytes: seq<char>)
      modifies this`dest
      ensures dest.Some? && Copy() == old(Copy()) + bytes
    {
      dest := Some(Copy() + bytes);
    }

    /** Appends to the copy what the source has from `start` on. */
    method CopyTail(start: nat) returns (copied: Option<nat>, ghost read: seq<char>)
      requires start <= |src|
      modifies this
      ensures old(src) <= read <= src && old(Copy()) <= Copy()
      ensures exists n :: IsAppended(old(Copy()), read[start..], n, Copy()) && (copied.Some? ==> n == |read| - start)
      ensures start == |old(Copy())| && old(Copy()) <= src ==> Copy() <= src
      ensures copied.Some? ==> copied.value == |Copy()| - |old(Copy())| == |read| - start
    {
      read := src;
      ghost var copy := Copy();
      assert IsAppended(copy, read[start..], 0, Copy());
      if * { return None, read; }
      OthersAppend();
      read := src;
      var tail := src[start..];
      assert IsAppended(copy, read[start..], 0, Copy());
      if * { return None, read; }
      OthersAppend();
      var written :| 0 <= written <= |tail|;
      AppendToCopy(tail[..written]);
      OthersAppend();
      assert IsAppended(copy, read[start..], written, Copy());
      if start == |copy| && copy <= src {
        StillPrefix(copy, read, written, src);
      }
      copied := if written < |tail| then None else Some(|tail|);
    }

    /** The length the pass takes the copy to have: a copy that cannot be looked at counts as
        empty, like one that is not there. */
    method StatCopy() returns (length: nat)
      ensures length == |Copy()| || (length == 0 && dest.Some?)
    {
      if * { return |Copy()|; }
      return 0;
    }

    /** One pass over the file; `None` is an error or a crash, wherever it happens. `seen` is the
        length the source had when the pass looked, `taken` the length it took the copy to have
        and `read` what it last read of the source.

        If `taken` is right: of a copy that starts as a prefix of the source the pass makes
        another, whatever happens; if it completes, the copy holds all the source held when the
        pass began. A completed pass repairs a copy that is no prefix exactly if it was longer
        than what the pass saw of the source.

        If `taken` is wrong, what was read goes behind what the copy holds. So a completed pass
        over a prefix leaves a prefix of what it read exactly if `taken` was right. */
    method SyncFile() returns (copied: Option<nat>, ghost seen: nat, ghost taken: nat, ghost read: seq<char>)
      modifies this
      ensures old(src) <= read <= src && |old(src)| <= seen <= |src|
      ensures taken == |old(Copy())| || (taken == 0 && old(dest).Some?)
      ensures taken == |old(Copy())| && old(Copy()) <= old(src) ==>
        && old(Copy()) <= Copy() <= src
        && (copied.Some? ==> old(src) <= Copy() && copied.value == |Copy()| - |old(Copy())|)
      ensures taken == |old(Copy())| && copied.Some? ==>
        (Copy() <= src <==> old(Copy()) <= src || |old(Copy())| > seen)
      ensures taken != |old(Copy())| ==> exists n :: IsAppended(old(Copy()), read, n, Copy()) && (copied.Some? ==> n == |read|)
      ensures copied.Some? && old(Copy()) <= old(src) ==> (Copy() <= read <==> taken == |old(Copy())|)
      decreases dest.Some?
    {
      OthersAppend();
      var srcLength := |src|;
      seen, taken, read := srcLength, |Copy()|, src;
      ghost var copy := Copy();
      if * { return None, seen, taken, read; }
      OthersAppend();
      var destLength := StatCopy();
      taken := destLength;
      assert IsAppended(copy, read, 0, Copy());
      OthersAppend();
      if destLength > srcLength {
        if * { return None, seen, taken, read; }
        dest := None;
        ghost var seenAgain, takenAgain: nat;
        copied, seenAgain, takenAgain, read := SyncFile();
        return;
      }
      if destLength == srcLength {
        assert taken != |copy| ==> IsAppended(copy, read, |read|, Copy());
        return Some(0), seen, taken, read;
      }
      copied, read := CopyTail(destLength);
      if taken == |copy| && copied.Some? && copy <= old(src) {
        ShorterPrefix(old(src), Copy(), src);
        ShorterPrefix(Copy(), read, src);
      }
    }

    /** However many passes are made, and however they end: while no pass mistook the copy for an
        empty one, it stays a prefix of the file and never shrinks. */
    method RunPeriodic(passes: nat) returns (ghost clear: bool)
      requires Copy() <= src
      modifies this
      ensures old(src) <= src
      ensures clear ==> Copy() <= src && old(Copy()) <= Copy()
    {
      clear := true;
      for i := 0 to passes
        invariant old(src) <= src
        invariant clear ==> Copy() <= src && old(Copy()) <= Copy()
      {
        ghost var length := |Copy()|;
        var copied, _, taken, _ := SyncFile();
        clear := clear && taken == length;
        OthersAppend();
      }
    }
  }

  /** `after` is `copy` with the first `n` characters of `read` behind it. */
  ghost predicate IsAppended(copy: seq<char>, read: seq<char>, n: int, after: seq<char>) {
    0 <= n <= |read| && after == copy + read[..n]
  }

  /** A copy that was mistaken for an empty one: what is behind it now agrees with no later
      state of the file. */
  lemma MistakenCopy(later: seq<char>)
    requires "ab" <= later
    ensures "a" <= "ab" && IsAppended("a", "ab", 2, "aab") && !("aab" <= later)
  {
    assert "ab"[..2] == "ab" && "a" + "ab" == "aab";
    assert "aab"[1] == 'a' && later[1] == 'b';
  }

  // ----- What a backup replays -----

  /** The length of the first line, or of everything if there is no line break. */
  function LineLength(bytes: seq<char>): (k: nat)
    ensures k <= |bytes| && (k < |bytes| ==> bytes[k] == '\n') && '\n' !in bytes[..k]
  {
    if bytes == [] || bytes[0] == '\n' then 0 else 1 + LineLength(bytes[1..])
  }

  /** The lines that are there to their end. */
  function WholeLines(bytes: seq<char>): seq<seq<char>> {
    var k := LineLength(bytes);
    if k == |bytes| then [] else [bytes[..k]] + WholeLines(bytes[k + 1..])
  }

  /** The file a log writes: one line an event. */
  function Written<E>(encode: E -> seq<char>, events: seq<E>): seq<char> {
    if events == [] then [] else encode(events[0]) + ['\n'] + Written(encode, events[1..])
  }

  function LinesOf<E>(encode: E -> seq<char>, events: seq<E>): (r: seq<seq<char>>)
    ensures |r| == |events| && forall i :: 0 <= i < |r| ==> r[i] == encode(events[i])
  {
    seq(|events|, i requires 0 <= i < |events| => encode(events[i]))
  }

  lemma {:induction false} LineLengthIs(bytes: seq<char>, k: nat)
    requires k < |bytes| && bytes[k] == '\n' && '\n' !in bytes[..k]
    ensures LineLength(bytes) == k
  {
  }

  lemma PrefixFrom(part: seq<char>, whole: seq<char>, i: nat)
    requires part <= whole && i <= |part|
    ensures part[i..] <= whole[i..]
  {
  }

  lemma {:induction false} FirstLine(bytes: seq<char>, k: nat)
    requires k < |bytes| && bytes[k] == '\n' && '\n' !in bytes[..k]
    ensures WholeLines(bytes) == [bytes[..k]] + WholeLines(bytes[k + 1..])
  {
    LineLengthIs(bytes, k);
  }

  /** The whole lines of a prefix are a prefix of the whole lines. */
  lemma {:induction false} PrefixLines(part: seq<char>, whole: seq<char>)
    requires part <= whole
    ensures WholeLines(part) <= WholeLines(whole)
    decreases |part|
  {
    var k := LineLength(part);
    if k < |part| {
      assert whole[..k] == part[..k] && whole[k] == part[k];
      FirstLine(part, k);
      FirstLine(whole, k);
      PrefixFrom(part, whole, k + 1);
      PrefixLines(part[k + 1..], whole[k + 1..]);
    }
  }

  lemma {:induction false} WrittenLines<E>(encode: E -> seq<char>, events: seq<E>)
    requires forall e :: '\n' !in encode(e)
    ensures WholeLines(Written(encode, events)) == LinesOf(encode, events)
  {
    var bytes := Written(encode, events);
    if events != [] {
      var line := encode(events[0]);
      assert bytes[..|line|] == line;
      LineLengthIs(bytes, |line|);
      assert bytes[|line| + 1..] == Written(encode, events[1..]);
      WrittenLines(encode, events[1..]);
    }
  }

  /** The records the reader makes of lines. */
  function Parsed<E>(parse: seq<char> -> Line<E>, lines: seq<seq<char>>): seq<Line<E>> {
    seq(|lines|, i requires 0 <= i < |lines| => parse(lines[i]))
  }

  lemma {:induction false} ParsedEvents<E>(encode: E -> seq<char>, parse: seq<char> -> Line<E>, events: seq<E>)
    requires forall e :: parse(encode(e)) == Record(e)
    ensures Events(Parsed(parse, LinesOf(encode, events))) == events
  {
    if events != [] {
      var n := |events| - 1;
      ParsedEvents(encode, parse, events[..n]);
      var lines := Parsed(parse, LinesOf(encode, events));
      assert lines[..n] == Parsed(parse, LinesOf(encode, events[..n]));
    }
  }

  /** Whatever prefix of its log the backup holds, its whole lines replay to a state the store
      went through: the state after its first `n` events. */
  lemma {:induction false} BackupReplaysAState<S, E>(encode: E -> seq<char>, parse: seq<char> -> Line<E>,
                                                     apply: (S, E) -> S, start: S,
                                                     events: seq<E>, backup: seq<char>) returns (n: nat)
    requires forall e :: '\n' !in encode(e)
    requires forall e :: parse(encode(e)) == Record(e)
    requires backup <= Written(encode, events)
    ensures n <= |events|
    ensures n == |WholeLines(backup)| && Events(Parsed(parse, WholeLines(backup))) == events[..n]
    ensures Fold(apply, start, Events(Parsed(parse, WholeLines(backup)))) == Fold(apply, start, events[..n])
    ensures Garbage !in Parsed(parse, WholeLines(backup))
  {
    PrefixLines(backup, Written(encode, events));
    WrittenLines(encode, events);
    n := |WholeLines(backup)|;
    assert WholeLines(backup) == LinesOf(encode, events)[..n] == LinesOf(encode, events[..n]);
    ParsedEvents(encode, parse, events[..n]);
    var lines := Parsed(parse, WholeLines(backup));
    forall i | 0 <= i < |lines|
      ensures lines[i] != Garbage
    {
      assert lines[i] == parse(encode(events[i]));
    }
  }

  /** A backup completed after the first `m` events were written replays at least those. */
  lemma {:induction false} BackupIsRecent<E>(encode: E -> seq<char>, events: seq<E>, m: nat, backup: seq<char>)
    requires forall e :: '\n' !in encode(e)
    requires m <= |events| && Written(encode, events[..m]) <= backup <= Written(encode, events)
    ensures LinesOf(encode, events[..m]) <= WholeLines(backup) <= LinesOf(encode, events)
  {
    PrefixLines(Written(encode, events[..m]), backup);
    PrefixLines(backup, Written(encode, events));
    WrittenLines(encode, events[..m]);
    WrittenLines(encode, events);
  }

  // ----- A backup that ends inside a line -----

  /** What is behind the last line break. */
  function Tail(bytes: seq<char>): seq<char> {
    var k := LineLength(bytes);
    if k == |bytes| then bytes else Tail(bytes[k + 1..])
  }

  /** The lines a reader gets: a last line without a line break counts. */
  function Lines(bytes: seq<char>): seq<seq<char>> {
    WholeLines(bytes) + if Tail(bytes) == [] then [] else [Tail(bytes)]
  }

  /** The tail of a backup begins the next event's line. */
  lemma {:induction false} TailBegins<E>(encode: E -> seq<char>, events: seq<E>, backup: seq<char>)
    requires forall e :: '\n' !in encode(e)
    requires backup <= Written(encode, events)
    ensures var n := |WholeLines(backup)|;
      if n < |events| then Tail(backup) <= encode(events[n]) else n == |events| && Tail(backup) == []
    decreases |events|
  {
    if events != [] {
      var line, whole := encode(events[0]), Written(encode, events);
      assert whole[..|line|] == line && whole[|line|] == '\n';
      if |backup| <= |line| {
        NoBreak(backup, line);
      } else {
        assert backup[..|line|] == line && backup[|line|] == '\n';
        FirstLine(backup, |line|);
        LineLengthIs(backup, |line|);
        PrefixFrom(backup, whole, |line| + 1);
        assert whole[|line| + 1..] == Written(encode, events[1..]);
        TailBegins(encode, events[1..], backup[|line| + 1..]);
      }
    }
  }

  lemma {:induction false} NoBreak(part: seq<char>, line: seq<char>)
    requires part <= line && '\n' !in line
    ensures WholeLines(part) == [] && Tail(part) == part
  {
    assert LineLength(part) == |part|;
  }

  /** The backup ends inside a line, not at its end. */
  ghost predicate Torn<E>(encode: E -> seq<char>, events: seq<E>, backup: seq<char>) {
    var n := |WholeLines(backup)|;
    n < |events| && 0 < |Tail(backup)| < |encode(events[n])|
  }

  /** The beginning of an event's line is no record, as with JSON objects. */
  ghost predicate BeginningsAreGarbage<E(!new)>(encode: E -> seq<char>, parse: seq<char> -> Line<E>) {
    forall e, k :: 0 < k < |encode(e)| ==> parse(encode(e)[..k]) == Garbage
  }

  lemma {:induction false} ParsedNext<E>(parse: seq<char> -> Line<E>, lines: seq<seq<char>>, line: seq<char>)
    ensures Parsed(parse, lines + [line]) == Parsed(parse, lines) + [parse(line)]
  {
  }

  lemma {:induction false} TailParses<E(!new)>(encode: E -> seq<char>, parse: seq<char> -> Line<E>, e: E, tail: seq<char>)
    requires parse(encode(e)) == Record(e) && BeginningsAreGarbage(encode, parse)
    requires tail != [] && tail <= encode(e)
    ensures parse(tail) == if |tail| < |encode(e)| then Garbage else Record(e)
  {
    var k := |tail|;
    assert tail == encode(e)[..k];
    if k == |encode(e)| {
      assert tail == encode(e);
    }
  }

  /** A server started from a backup finds a line that does not parse exactly if the backup ends
      inside a line. Otherwise it replays to a state the store went through. */
  lemma {:induction false} BackupStartsIff<E(!new)>(encode: E -> seq<char>, parse: seq<char> -> Line<E>,
                                                    events: seq<E>, backup: seq<char>) returns (n: nat)
    requires forall e :: '\n' !in encode(e)
    requires forall e :: parse(encode(e)) == Record(e)
    requires BeginningsAreGarbage(encode, parse) && backup <= Written(encode, events)
    ensures Garbage in Parsed(parse, Lines(backup)) <==> Torn(encode, events, backup)
    ensures n <= |events|
    ensures !Torn(encode, events, backup) ==> Events(Parsed(parse, Lines(backup))) == events[..n]
  {
    var whole, tail := WholeLines(backup), Tail(backup);
    n := BackupReplaysAState(encode, parse, (s: nat, e: E) => s, 0, events, backup);
    TailBegins(encode, events, backup);
    if tail == [] {
      assert Lines(backup) == whole;
    } else {
      var e := events[n];
      TailParses(encode, parse, e, tail);
      ParsedNext(parse, whole, tail);
      if |tail| == |encode(e)| {
        EventsAppend(Parsed(parse, whole), e);
        n := n + 1;
      }
    }
  }

  /** A write cut short inside the first line: the copy is a prefix of the log, and refused. */
  lemma {:induction false} TornBackup<E(!new)>(encode: E -> seq<char>, parse: seq<char> -> Line<E>, e: E, k: nat)
    requires forall e' :: '\n' !in encode(e')
    requires BeginningsAreGarbage(encode, parse) && 0 < k < |encode(e)|
    ensures encode(e)[..k] <= Written(encode, [e]) && Garbage in Parsed(parse, Lines(encode(e)[..k]))
  {
    var backup := encode(e)[..k];
    NoBreak(backup, encode(e));
    assert Parsed(parse, Lines(backup))[0] == Garbage;
  }
}
