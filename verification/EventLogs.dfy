/**
 The append-only, replayable log every store is built on. A store applies an event to its
 state only after the event was appended, so the state is always the fold of the log.
 */
module EventLogs {
  import opened Common

  /** One line of the file: blank lines are skipped, anything else must parse. */
  datatype Line<+E> = Blank | Record(event: E) | Garbage

  /** The file a log is opened on. One that is there but cannot be opened for reading can still
      be opened for appending. */
  datatype LogFile<+E> = Absent | Unreadable(hidden: seq<Line<E>>) | Readable(found: seq<Line<E>>)

  function LinesIn<E>(file: LogFile<E>): seq<Line<E>> {
    match file
    case Absent => []
    case Unreadable(lines) => lines
    case Readable(lines) => lines
  }

  /** The lines a restart gets to see. */
  function LinesSeen<E>(file: LogFile<E>): seq<Line<E>> {
    if file.Readable? then file.found else []
  }

  /** The error carries the number of the line that does not parse, counted from one. */
  datatype LogError = Corrupt(line: nat) | AppendFailed

  ghost function Fold<S, E>(apply: (S, E) -> S, start: S, events: seq<E>): S {
    if events == [] then start
    else apply(Fold(apply, start, events[..|events| - 1]), events[|events| - 1])
  }

  lemma FoldAppend<S, E>(apply: (S, E) -> S, start: S, events: seq<E>, e: E)
    ensures Fold(apply, start, events + [e]) == apply(Fold(apply, start, events), e)
  {
    assert (events + [e])[..|events|] == events;
  }

  /** Replaying a log is replaying its tail on the state its head leads to. */
  lemma {:induction false} FoldConcat<S, E>(apply: (S, E) -> S, start: S, a: seq<E>, b: seq<E>)
    ensures Fold(apply, start, a + b) == Fold(apply, Fold(apply, start, a), b)
  {
    if b == [] {
      assert a + b == a;
    } else {
      var n := |b| - 1;
      assert (a + b)[..|a + b| - 1] == a + b[..n];
      FoldConcat(apply, start, a, b[..n]);
    }
  }

  /** The records of a file. */
  ghost function Events<E>(lines: seq<Line<E>>): seq<E> {
    if lines == [] then []
    else
      var rest := Events(lines[..|lines| - 1]);
      var last := lines[|lines| - 1];
      if last.Record? then rest + [last.event] else rest
  }

  lemma EventsAppend<E>(lines: seq<Line<E>>, e: E)
    ensures Events(lines + [Record(e)]) == Events(lines) + [e]
  {
    assert (lines + [Record(e)])[..|lines|] == lines;
  }

  /** The latest event about something stands at `i`. */
  ghost predicate Latest<E>(events: seq<E>, about: E -> bool, i: int) {
    0 <= i < |events| && about(events[i]) && forall j :: i < j < |events| ==> !about(events[j])
  }

  lemma {:induction false} LatestAppend<E>(events: seq<E>, e: E, about: E -> bool, i: int)
    ensures Latest(events + [e], about, i) <==> if about(e) then i == |events| else Latest(events, about, i)
  {
    var longer := events + [e];
    assert longer[|events|] == e;
    if 0 <= i < |events| && Latest(longer, about, i) {
      forall j | i < j < |events|
        ensures !about(events[j])
      {
        assert longer[j] == events[j];
      }
    }
  }

  class EventLog<E(0)> {
    var lines: seq<Line<E>>

    constructor (lines: seq<Line<E>>)
      ensures this.lines == lines
    {
      this.lines := lines;
    }

    /** Replays a file record by record. A line that does not parse refuses the whole file,
        whatever comes before or after it. A file that cannot be read is taken for a new one, and
        later appends go behind what it holds: the state is the fold of the file exactly if the
        file could be read or its records lead back to the start. */
    static method OpenAndReplay<S>(file: LogFile<E>, start: S, apply: (S, E) -> S)
      returns (log: Result<EventLog<E>, LogError>, state: S)
      ensures log.Ok? ==>
        && fresh(log.value) && log.value.lines == LinesIn(file)
        && Garbage !in LinesSeen(file)
        && state == Fold(apply, start, Events(LinesSeen(file)))
        && (state == Fold(apply, start, Events(log.value.lines)) <==>
            !file.Unreadable? || Fold(apply, start, Events(file.hidden)) == start)
      ensures log.Err? ==>
        && file.Readable? && log.error.Corrupt?
        && 0 < log.error.line <= |file.found|
        && file.found[log.error.line - 1] == Garbage
        && Garbage !in file.found[..log.error.line - 1]
    {
      state := start;
      if file.Readable? {
        var lines := file.found;
        for i := 0 to |lines|
          invariant Garbage !in lines[..i]
          invariant state == Fold(apply, start, Events(lines[..i]))
        {
          assert lines[..i + 1] == lines[..i] + [lines[i]];
          match lines[i] {
            case Blank =>
            case Garbage => return Err(Corrupt(i + 1)), state;
            case Record(event) =>
              EventsAppend(lines[..i], event);
              FoldAppend(apply, start, Events(lines[..i]), event);
              state := apply(state, event);
          }
        }
        assert lines[..|lines|] == lines;
      }
      var appendable := new EventLog(LinesIn(file));
      log := Ok(appendable);
    }

    /** Appends one record, or fails and leaves the file as it was. Whether the write succeeds
        is up to the file system. */
    method Append(event: E) returns (ok: bool)
      modifies this
      ensures lines == if ok then old(lines) + [Record(event)] else old(lines)
    {
      ok := *;
      if ok { lines := lines + [Record(event)]; }
    }
  }
}
