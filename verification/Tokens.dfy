/** Single-use enrollment tokens: minted, consumed at most once, revocable. */
module Tokens {
  import opened Common
  import opened EventLogs

  datatype Token = Token(expires: Option<int>, commonName: Option<Name>,
                         used: bool, usedBy: Option<Name>, usedAt: Option<int>, revoked: bool)

  datatype Event =
    | Minted(token: Name, expires: Option<int>, commonName: Option<Name>)
    | Consumed(token: Name, user: Name, at: int)
    | Revoked(token: Name)

  datatype Error = NotFound | AlreadyUsed | IsRevoked | Expired | WrongIdentity | LogFailed

  type State = map<Name, Token>

  function Apply(s: State, e: Event): State {
    match e
    case Minted(token, expires, commonName) => s[token := Token(expires, commonName, false, None, None, false)]
    case Consumed(token, user, at) =>
      if token in s then s[token := s[token].(used := true, usedBy := Some(user), usedAt := Some(at))] else s
    case Revoked(token) => if token in s then s[token := s[token].(revoked := true)] else s
  }

  ghost function StateAfter(events: seq<Event>): State {
    Fold(Apply, map[], events)
  }

  /** The checks of `validate_and_consume`, in their order. */
  function Check(s: State, token: Name, commonName: Name, now: int): Option<Error> {
    if token !in s then Some(NotFound)
    else
      var t := s[token];
      if t.revoked then Some(IsRevoked)
      else if t.used then Some(AlreadyUsed)
      else if t.expires.Some? && now >= t.expires.value then Some(Expired)
      else if t.commonName.Some? && t.commonName.value != commonName then Some(WrongIdentity)
      else None
  }

  /** Token values are random, so a new one has not been minted before. */
  ghost predicate Enabled(s: State, e: Event) {
    match e
    case Minted(token, _, _) => token !in s
    case Consumed(token, user, at) => Check(s, token, user, at).None?
    case Revoked(token) => token in s
  }

  ghost predicate Legit(events: seq<Event>) {
    events == [] ||
    (Legit(events[..|events| - 1]) && Enabled(StateAfter(events[..|events| - 1]), events[|events| - 1]))
  }

  ghost predicate ConsumesAt(events: seq<Event>, token: Name, i: int) {
    0 <= i < |events| && events[i].Consumed? && events[i].token == token
  }

  /** A token is used exactly when the log consumed it, by whom and when the log says. */
  ghost predicate UsesRead(s: State, events: seq<Event>) {
    && (forall token, i :: ConsumesAt(events, token, i) ==>
         && token in s && s[token].used
         && s[token].usedBy == Some(events[i].user) && s[token].usedAt == Some(events[i].at))
    && (forall token :: token in s && s[token].used ==> exists i :: ConsumesAt(events, token, i))
  }

  lemma UsesStep(s: State, events: seq<Event>, e: Event)
    requires UsesRead(s, events) && Enabled(s, e)
    ensures UsesRead(Apply(s, e), events + [e])
  {
    var t, more := Apply(s, e), events + [e];
    forall token, i | ConsumesAt(more, token, i)
      ensures token in t && t[token].used
      ensures t[token].usedBy == Some(more[i].user) && t[token].usedAt == Some(more[i].at)
    {
      if i < |events| { assert ConsumesAt(events, token, i); }
    }
    forall token | token in t && t[token].used
      ensures exists i :: ConsumesAt(more, token, i)
    {
      if e.Consumed? && e.token == token {
        assert ConsumesAt(more, token, |events|);
      } else {
        var i :| ConsumesAt(events, token, i);
        assert ConsumesAt(more, token, i);
      }
    }
  }

  lemma {:induction false} StateReadsLog(events: seq<Event>)
    requires Legit(events)
    ensures UsesRead(StateAfter(events), events)
  {
    if events != [] {
      var front, last := events[..|events| - 1], events[|events| - 1];
      StateReadsLog(front);
      UsesStep(StateAfter(front), front, last);
      assert events == front + [last];
    }
  }

  /** No log the store writes consumes a token twice. */
  lemma {:induction false} ConsumedAtMostOnce(events: seq<Event>, token: Name, i: int, j: int)
    requires Legit(events) && ConsumesAt(events, token, i) && ConsumesAt(events, token, j)
    ensures i == j
  {
    var n := |events| - 1;
    var front := events[..n];
    StateReadsLog(front);
    if i < n { assert ConsumesAt(front, token, i); }
    if j < n { assert ConsumesAt(front, token, j); }
    if i < n && j < n { ConsumedAtMostOnce(front, token, i, j); }
  }

  // ----- Usable or not, read off the log -----

  ghost predicate MintsAt(events: seq<Event>, token: Name, i: int) {
    0 <= i < |events| && events[i].Minted? && events[i].token == token
  }

  ghost predicate EverMinted(events: seq<Event>, token: Name) {
    exists i :: MintsAt(events, token, i)
  }

  /** The token as the log minted it and as it was used and revoked since. */
  ghost predicate TokenReads(s: State, events: seq<Event>, token: Name) {
    && (token in s <==> EverMinted(events, token))
    && (token in s ==>
          && (s[token].used <==> exists i :: ConsumesAt(events, token, i))
          && (s[token].revoked <==> Revoked(token) in events)
          && forall i :: MintsAt(events, token, i) ==>
               s[token].expires == events[i].expires && s[token].commonName == events[i].commonName)
  }

  lemma {:induction false} MintsAppend(events: seq<Event>, e: Event, token: Name, i: int)
    ensures MintsAt(events + [e], token, i) <==>
            MintsAt(events, token, i) || (i == |events| && e.Minted? && e.token == token)
    ensures ConsumesAt(events + [e], token, i) <==>
            ConsumesAt(events, token, i) || (i == |events| && e.Consumed? && e.token == token)
  {
  }

  lemma {:induction false} TokenReadsStep(s: State, events: seq<Event>, e: Event, token: Name)
    requires TokenReads(s, events, token) && Enabled(s, e)
    requires token in s || !exists i :: ConsumesAt(events, token, i)
    requires token in s || Revoked(token) !in events
    ensures TokenReads(Apply(s, e), events + [e], token)
  {
    var more := events + [e];
    forall i
      ensures MintsAt(more, token, i) <==>
              MintsAt(events, token, i) || (i == |events| && e.Minted? && e.token == token)
      ensures ConsumesAt(more, token, i) <==>
              ConsumesAt(events, token, i) || (i == |events| && e.Consumed? && e.token == token)
    {
      MintsAppend(events, e, token, i);
    }
    assert more[|events|] == e;
    if i :| MintsAt(events, token, i) {
      assert MintsAt(more, token, i);
    }
    if i :| ConsumesAt(events, token, i) {
      assert ConsumesAt(more, token, i);
    }
    assert e.Minted? && e.token == token ==> MintsAt(more, token, |events|);
    assert e.Consumed? && e.token == token ==> ConsumesAt(more, token, |events|);
  }

  lemma {:induction false} TokenReadsLog(events: seq<Event>, token: Name)
    requires Legit(events)
    ensures TokenReads(StateAfter(events), events, token)
    ensures token in StateAfter(events) || ((!exists i :: ConsumesAt(events, token, i)) && Revoked(token) !in events)
  {
    if events != [] {
      var front, last := events[..|events| - 1], events[|events| - 1];
      assert events == front + [last];
      TokenReadsLog(front, token);
      TokenReadsStep(StateAfter(front), front, last, token);
      StateReadsLog(events);
    }
  }

  /** After every log of the store a token is accepted for a name exactly if it was minted, not
      since consumed or revoked, has not expired, and is bound to no other name. */
  lemma {:induction false} AcceptedIff(events: seq<Event>, token: Name, commonName: Name, now: int)
    requires Legit(events)
    ensures Check(StateAfter(events), token, commonName, now).None? <==>
      && (!exists i :: ConsumesAt(events, token, i)) && Revoked(token) !in events
      && exists i :: MintsAt(events, token, i)
           && (events[i].expires.Some? ==> now < events[i].expires.value)
           && (events[i].commonName.Some? ==> events[i].commonName.value == commonName)
  {
    TokenReadsLog(events, token);
  }

  /** And why it is refused: revoked comes before used, used before expired, expired before bound to
      another name. */
  lemma {:induction false} RefusedBecause(events: seq<Event>, token: Name, commonName: Name, now: int)
    requires Legit(events)
    ensures var refusal := Check(StateAfter(events), token, commonName, now);
      && (refusal == Some(NotFound) <==> !EverMinted(events, token))
      && (refusal == Some(IsRevoked) <==> Revoked(token) in events)
      && (refusal == Some(AlreadyUsed) <==> Revoked(token) !in events && exists i :: ConsumesAt(events, token, i))
      && (refusal == Some(Expired) <==>
            && Revoked(token) !in events && (!exists i :: ConsumesAt(events, token, i))
            && exists i :: MintsAt(events, token, i) && events[i].expires.Some? && events[i].expires.value <= now)
      && (refusal == Some(WrongIdentity) ==>
            exists i :: MintsAt(events, token, i)
              && events[i].commonName.Some? && events[i].commonName.value != commonName)
      && refusal != Some(LogFailed)
  {
    TokenReadsLog(events, token);
  }

  class TokenStore {
    var tokens: State
    const log: EventLog<Event>

    ghost predicate Valid()
      reads this, log
    {
      tokens == StateAfter(Events(log.lines)) && Legit(Events(log.lines))
    }

    constructor (tokens: State, log: EventLog<Event>)
      ensures this.tokens == tokens && this.log == log
    {
      this.tokens := tokens;
      this.log := log;
    }

    /** A restart: the state is rebuilt by replaying the file, and is the file's exactly if the
        file could be read or its events lead back to an empty store. */
    static method LoadOrCreate(file: LogFile<Event>) returns (store: Result<TokenStore, LogError>)
      ensures store.Ok? <==> Garbage !in LinesSeen(file)
      ensures store.Ok? ==>
        && fresh(store.value) && fresh(store.value.log)
        && store.value.log.lines == LinesIn(file)
        && store.value.tokens == StateAfter(Events(LinesSeen(file)))
        && (store.value.tokens == StateAfter(Events(store.value.log.lines)) <==>
            !file.Unreadable? || StateAfter(Events(file.hidden)) == map[])
        && (!file.Unreadable? && Legit(Events(store.value.log.lines)) ==> store.value.Valid())
    {
      var log, tokens := EventLog.OpenAndReplay(file, map[], Apply);
      if log.Err? { return Err(log.error); }
      var loaded := new TokenStore(tokens, log.value);
      store := Ok(loaded);
    }

    method Record(e: Event) returns (ok: bool)
      requires Valid() && Enabled(tokens, e)
      modifies this`tokens, log
      ensures Valid()
      ensures ok ==> tokens == Apply(old(tokens), e) && Events(log.lines) == Events(old(log.lines)) + [e]
      ensures !ok ==> tokens == old(tokens) && log.lines == old(log.lines)
    {
      ghost var events := Events(log.lines);
      ok := log.Append(e);
      if ok {
        EventsAppend(old(log.lines), e);
        assert (events + [e])[..|events|] == events;
        FoldAppend(Apply, map[], events, e);
        tokens := Apply(tokens, e);
      }
    }

    /** `random` stands for the fresh random value. */
    method Mint(random: Name, expiresIn: Option<int>, commonName: Option<Name>, now: int) returns (r: Result<Name, Error>)
      requires Valid() && random !in tokens
      modifies this`tokens, log
      ensures Valid()
      ensures r.Ok? ==>
        && r.value == random
        && tokens.Keys == old(tokens).Keys + {random} && (forall t :: t in old(tokens) ==> tokens[t] == old(tokens)[t])
        && (forall cn, at :: Check(tokens, random, cn, at).None? <==>
             && (expiresIn.Some? ==> at < now + expiresIn.value)
             && (commonName.Some? ==> commonName.value == cn))
      ensures r.Err? ==> r.error == LogFailed && tokens == old(tokens)
    {
      var expires := if expiresIn.Some? then Some(now + expiresIn.value) else None;
      var ok := Record(Minted(random, expires, commonName));
      r := if ok then Ok(random) else Err(LogFailed);
    }

    /** Validation and consumption happen under one lock: the token is consumed by this name,
        and nobody can use it again; a refused attempt spends nothing. */
    method ValidateAndConsume(token: Name, commonName: Name, now: int) returns (r: Result<(), Error>)
      requires Valid()
      modifies this`tokens, log
      ensures Valid()
      ensures r.Err? ==> tokens == old(tokens)
      ensures Check(old(tokens), token, commonName, now).Some? ==>
        r == Err(Check(old(tokens), token, commonName, now).value)
      ensures Check(old(tokens), token, commonName, now).None? && r.Err? ==> r.error == LogFailed
      ensures r.Ok? ==>
        && Check(old(tokens), token, commonName, now).None?
        && token in tokens && tokens[token].used && tokens[token].usedBy == Some(commonName)
        && tokens == Apply(old(tokens), Consumed(token, commonName, now))
        && forall cn, at :: Check(tokens, token, cn, at).Some?
    {
      var refusal := Check(tokens, token, commonName, now);
      if refusal.Some? { return Err(refusal.value); }
      var ok := Record(Consumed(token, commonName, now));
      r := if ok then Ok(()) else Err(LogFailed);
    }

    method Revoke(token: Name) returns (r: Result<(), Error>)
      requires Valid()
      modifies this`tokens, log
      ensures Valid()
      ensures r == Err(NotFound) <==> token !in old(tokens)
      ensures r.Ok? ==>
        && tokens == Apply(old(tokens), Revoked(token))
        && forall cn, at :: Check(tokens, token, cn, at) == Some(IsRevoked)
      ensures r.Err? ==> tokens == old(tokens)
    {
      if token !in tokens { return Err(NotFound); }
      var ok := Record(Revoked(token));
      r := if ok then Ok(()) else Err(LogFailed);
    }
  }
}
