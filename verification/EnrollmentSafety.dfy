/** What every run of the enrollment protocol keeps. */
module EnrollmentSafety {
  import opened Common
  import Registry
  import Tokens
  import opened Enrollment

  // ----- The invariant -----

  ghost predicate SpentBy(s: Server, token: Name, commonName: Name) {
    token in s.tokens && s.tokens[token].used && s.tokens[token].usedBy == Some(commonName)
  }

  ghost predicate ProvedBy(s: Server, proof: nat, session: nat, username: Name) {
    proof < |s.proofs| && s.proofs[proof].session == session && s.proofs[proof].username == username
  }

  ghost predicate InHistory(s: Server, token: Name) {
    exists i :: 0 <= i < |s.history| && s.history[i].how == ByToken(token)
  }

  ghost predicate Presents(r: Request, username: Name, password: Name) {
    r.basic.Some? && r.basic.value.0 == username && r.basic.value.1 == password
  }

  /** What a request's position says about the past. */
  ghost predicate SessionOk(c: Config, s: Server, id: nat, x: Session) {
    var cn := x.request.commonName;
    && id < s.nextSession
    && match x.pc
       case Login(username, password) => Presents(x.request, username, password)
       case Verified(username, proof) => ProvedBy(s, proof, id, username)
       case Cleared(username, proof) => ProvedBy(s, proof, id, username) && username == cn && !IsAdmin(c, cn)
       case Looking(_) => !IsAdmin(c, cn)
       case NewIdentity(_) => !IsAdmin(c, cn)
       case Admitted(spent) =>
         && !IsAdmin(c, cn) && (spent.None? ==> !c.lockedDown)
         && (spent.Some? ==> SpentBy(s, spent.value, cn) && !InHistory(s, spent.value))
       case AdminWaits(_) => IsAdmin(c, cn)
       case AdminHolds(_) => IsAdmin(c, cn) && s.lock == Some(id)
       case AdminInserted => IsAdmin(c, cn) && s.lock == Some(id)
       case AdminCleared => IsAdmin(c, cn) && s.lock == Some(id)
       case _ => true
  }

  ghost predicate SessionsOk(c: Config, s: Server) {
    forall id :: id in s.sessions ==> SessionOk(c, s, id, s.sessions[id])
  }

  ghost predicate HoldsSpent(pc: Pc) {
    pc.Admitted? && pc.spent.Some?
  }

  /** Two requests never hold the same spent token. */
  ghost predicate SpentApart(s: Server) {
    forall i, j :: i in s.sessions && j in s.sessions && i != j && HoldsSpent(s.sessions[i].pc) ==>
      s.sessions[j].pc != s.sessions[i].pc
  }

  ghost predicate EntryOk(c: Config, s: Server, e: Enrollment) {
    match e.how
    case ByPassword(proof) => ProvedBy(s, proof, e.session, e.commonName) && !IsAdmin(c, e.commonName)
    case ByBootstrap(_) => IsAdmin(c, e.commonName)
    case ByToken(token) => SpentBy(s, token, e.commonName) && !IsAdmin(c, e.commonName)
    case Freely => !c.lockedDown && !IsAdmin(c, e.commonName)
  }

  ghost predicate HistoryOk(c: Config, s: Server) {
    forall i :: 0 <= i < |s.history| ==> EntryOk(c, s, s.history[i])
  }

  ghost predicate TokensApart(s: Server) {
    forall i, j :: 0 <= i < j < |s.history| && s.history[i].how.ByToken? ==> s.history[i].how != s.history[j].how
  }

  /** Only a password enrolls a name that is already there. */
  ghost predicate NewOnce(s: Server) {
    forall i, j :: 0 <= i < j < |s.history| && s.history[i].commonName == s.history[j].commonName ==>
      s.history[j].how.ByPassword?
  }

  ghost predicate LatestFor(s: Server, cn: Name, i: int) {
    && 0 <= i < |s.history| && s.history[i].commonName == cn
    && forall j :: i < j < |s.history| ==> s.history[j].commonName != cn
  }

  /** The registry holds the names of the history, each with its latest certificate. */
  ghost predicate DevicesOk(s: Server) {
    && (forall i :: 0 <= i < |s.history| ==> s.history[i].commonName in s.registry.devices)
    && (forall cn :: cn in s.registry.devices ==>
         exists i :: LatestFor(s, cn, i) && s.history[i].cert == s.registry.devices[cn].cert)
  }

  /** The token is outstanding exactly while the admin is not enrolled, the short time
      between insertion and giving the token up excepted. */
  ghost predicate BootstrapOk(c: Config, s: Server) {
    && (!s.running ==> s.sessions == map[] && s.lock.None? && s.bootstrap.None?)
    && (c.admin.None? ==> s.lock.None?)
    && (s.running && c.admin.Some? ==>
         var enrolled := c.admin.value in s.registry.devices;
         && (s.bootstrap.Some? ==> s.file == Holds(s.bootstrap.value))
         && (s.lock.None? ==> (s.bootstrap.Some? <==> !enrolled))
         && (s.lock.Some? ==>
              && s.lock.value in s.sessions
              && match s.sessions[s.lock.value].pc
                 case AdminHolds(_) => s.bootstrap.Some? <==> !enrolled
                 case AdminInserted => s.bootstrap.Some? && enrolled
                 case AdminCleared => s.bootstrap.None? && enrolled
                 case _ => false))
  }

  ghost predicate Inv(c: Config, s: Server) {
    && SessionsOk(c, s) && SpentApart(s)
    && HistoryOk(c, s) && TokensApart(s) && NewOnce(s) && DevicesOk(s)
    && BootstrapOk(c, s)
  }

  lemma InitInv(c: Config, s: Server)
    requires Init(s)
    ensures Inv(c, s)
  {
  }

  // ----- Steps that leave registry, tokens and history alone -----

  /** The step only moves request `id` to `pc`, possibly with a new proof or another lock. */
  ghost predicate Quiet(s: Server, t: Server, id: nat) {
    && id in s.sessions && t.sessions.Keys == s.sessions.Keys
    && t.sessions == s.sessions[id := s.sessions[id].(pc := t.sessions[id].pc)]
    && t.nextSession == s.nextSession && t.running == s.running
    && t.registry == s.registry && t.tokens == s.tokens && t.history == s.history
    && s.proofs <= t.proofs
  }

  lemma QuietHistory(c: Config, s: Server, t: Server, id: nat)
    requires Inv(c, s) && Quiet(s, t, id)
    ensures HistoryOk(c, t) && TokensApart(t) && NewOnce(t) && DevicesOk(t)
  {
    forall i | 0 <= i < |t.history|
      ensures EntryOk(c, t, t.history[i])
    {
      assert EntryOk(c, s, s.history[i]);
    }
    forall cn | cn in t.registry.devices
      ensures exists i :: LatestFor(t, cn, i) && t.history[i].cert == t.registry.devices[cn].cert
    {
      var i :| LatestFor(s, cn, i) && s.history[i].cert == s.registry.devices[cn].cert;
      assert LatestFor(t, cn, i);
    }
  }

  /** Others stay where they are: the lock changes hands only to or from this request. */
  lemma QuietSessions(c: Config, s: Server, t: Server, id: nat)
    requires Inv(c, s) && Quiet(s, t, id) && SessionOk(c, t, id, t.sessions[id])
    requires t.lock == s.lock || s.lock.None? || s.lock == Some(id)
    requires !HoldsSpent(t.sessions[id].pc)
    ensures SessionsOk(c, t) && SpentApart(t)
  {
    forall k | k in t.sessions
      ensures SessionOk(c, t, k, t.sessions[k])
    {
      if k != id {
        assert SessionOk(c, s, k, s.sessions[k]);
        assert t.sessions[k] == s.sessions[k];
        if HoldsSpent(t.sessions[k].pc) {
          assert InHistory(t, t.sessions[k].pc.spent.value) == InHistory(s, t.sessions[k].pc.spent.value);
        }
      }
    }
  }

  lemma QuietKeeps(c: Config, s: Server, t: Server, id: nat)
    requires Inv(c, s) && Quiet(s, t, id) && SessionOk(c, t, id, t.sessions[id]) && !HoldsSpent(t.sessions[id].pc)
    requires t.lock == s.lock || s.lock.None? || s.lock == Some(id)
    requires BootstrapOk(c, t)
    ensures Inv(c, t)
  {
    QuietHistory(c, s, t, id);
    QuietSessions(c, s, t, id);
  }

  /** A request that does not hold the lock moves on without touching the bootstrap token. */
  lemma PlainKeeps(c: Config, s: Server, t: Server, id: nat)
    requires Inv(c, s) && Quiet(s, t, id) && SessionOk(c, t, id, t.sessions[id]) && !HoldsSpent(t.sessions[id].pc)
    requires t.lock == s.lock && t.bootstrap == s.bootstrap && t.file == s.file && s.lock != Some(id)
    ensures Inv(c, t)
  {
    QuietKeeps(c, s, t, id);
  }

  /** Only the admin's own steps hold the lock. */
  lemma NotLockHolder(c: Config, s: Server, id: nat)
    requires Inv(c, s) && id in s.sessions
    requires var pc := s.sessions[id].pc; !pc.AdminHolds? && !pc.AdminInserted? && !pc.AdminCleared?
    ensures s.lock != Some(id)
  {
  }

  // ----- The steps of a request -----

  lemma AdvanceQuietly(c: Config, s: Server, id: nat, pc: Pc)
    requires Inv(c, s) && id in s.sessions && s.lock != Some(id)
    requires SessionOk(c, s, id, s.sessions[id].(pc := pc)) && !HoldsSpent(pc)
    ensures Inv(c, Goes(s, id, pc))
  {
    var t := Goes(s, id, pc);
    PlainKeeps(c, s, t, id);
  }

  lemma LoginKeeps(c: Config, s: Server, id: nat, username: Name, password: Name, t: Server)
    requires Inv(c, s) && id in s.sessions && s.lock != Some(id) && StepLogin(s, id, username, password, t)
    ensures Inv(c, t)
  {
    assert SessionOk(c, s, id, s.sessions[id]);
    if t.proofs == s.proofs {
      AdvanceQuietly(c, s, id, Finished(Refused));
    } else {
      PlainKeeps(c, s, t, id);
    }
  }

  lemma ConsumeSessions(c: Config, s: Server, id: nat, token: Name, t: Server)
    requires Inv(c, s) && id in s.sessions && s.sessions[id].pc == NewIdentity(Some(token))
    requires Tokens.Check(s.tokens, token, s.sessions[id].request.commonName, s.sessions[id].request.now).None?
    requires t == Goes(Consumes(s, id, token), id, Admitted(Some(token)))
    ensures SessionsOk(c, t) && SpentApart(t)
  {
    FreshToken(c, s, token);
    forall k | k in t.sessions
      ensures SessionOk(c, t, k, t.sessions[k])
    {
      assert SessionOk(c, s, k, s.sessions[k]);
      if HoldsSpent(t.sessions[k].pc) {
        assert InHistory(t, t.sessions[k].pc.spent.value) == InHistory(s, t.sessions[k].pc.spent.value);
      }
    }
  }

  /** A usable token is in nobody's hands and in no entry. */
  lemma FreshToken(c: Config, s: Server, token: Name)
    requires Inv(c, s) && token in s.tokens && !s.tokens[token].used
    ensures !InHistory(s, token)
    ensures forall k :: k in s.sessions ==> s.sessions[k].pc != Admitted(Some(token))
  {
    forall i | 0 <= i < |s.history|
      ensures s.history[i].how != ByToken(token)
    {
      assert EntryOk(c, s, s.history[i]);
    }
    forall k | k in s.sessions
      ensures s.sessions[k].pc != Admitted(Some(token))
    {
      assert SessionOk(c, s, k, s.sessions[k]);
    }
  }

  /** Tokens already spent stay spent by the same name. */
  ghost predicate SpentStays(s: Server, t: Server) {
    forall token, cn :: SpentBy(s, token, cn) ==> SpentBy(t, token, cn)
  }

  lemma HistoryKept(c: Config, s: Server, t: Server)
    requires Inv(c, s) && SpentStays(s, t) && s.proofs <= t.proofs && t.history == s.history
    requires t.registry.devices.Keys == s.registry.devices.Keys
    requires forall cn :: cn in s.registry.devices ==> t.registry.devices[cn].cert == s.registry.devices[cn].cert
    ensures HistoryOk(c, t) && TokensApart(t) && NewOnce(t) && DevicesOk(t)
  {
    forall i | 0 <= i < |t.history|
      ensures EntryOk(c, t, t.history[i])
    {
      assert EntryOk(c, s, s.history[i]);
    }
    forall cn | cn in t.registry.devices
      ensures exists i :: LatestFor(t, cn, i) && t.history[i].cert == t.registry.devices[cn].cert
    {
      var i :| LatestFor(s, cn, i) && s.history[i].cert == s.registry.devices[cn].cert;
      assert LatestFor(t, cn, i);
    }
  }

  lemma ConsumeKeeps(c: Config, s: Server, id: nat, token: Name, t: Server)
    requires Inv(c, s) && id in s.sessions && s.sessions[id].pc == NewIdentity(Some(token))
    requires Tokens.Check(s.tokens, token, s.sessions[id].request.commonName, s.sessions[id].request.now).None?
    requires t == Goes(Consumes(s, id, token), id, Admitted(Some(token)))
    ensures Inv(c, t)
  {
    ConsumeSessions(c, s, id, token, t);
    HistoryKept(c, s, t);
    NotLockHolder(c, s, id);
  }

  // ----- Insertions -----

  /** `t` is `s` with one more entry, for a name that is new unless a password is behind it. */
  ghost predicate Adds(c: Config, s: Server, t: Server, id: nat, how: How) {
    && id in s.sessions
    && t.registry == Inserts(s, id, how).registry && t.history == Inserts(s, id, how).history
    && t.tokens == s.tokens && t.proofs == s.proofs
    && EntryOk(c, s, Inserts(s, id, how).history[|s.history|])
    && (!how.ByPassword? ==> s.sessions[id].request.commonName !in s.registry.devices)
    && (how.ByToken? ==> !InHistory(s, how.token))
  }

  lemma {:induction false} AddsEntries(c: Config, s: Server, t: Server, id: nat, how: How)
    requires Inv(c, s) && Adds(c, s, t, id, how)
    ensures HistoryOk(c, t) && TokensApart(t) && NewOnce(t)
  {
    forall i | 0 <= i < |t.history|
      ensures EntryOk(c, t, t.history[i])
    {
      if i < |s.history| { assert EntryOk(c, s, s.history[i]); }
    }
    forall i | 0 <= i < |s.history|
      ensures t.history[i] == s.history[i] && s.history[i].commonName in s.registry.devices
      ensures how.ByToken? ==> s.history[i].how != how
    {
    }
  }

  lemma AddsDevices(c: Config, s: Server, t: Server, id: nat, how: How)
    requires Inv(c, s) && Adds(c, s, t, id, how)
    ensures DevicesOk(t)
  {
    var r := s.sessions[id].request;
    forall cn | cn in t.registry.devices
      ensures exists i :: LatestFor(t, cn, i) && t.history[i].cert == t.registry.devices[cn].cert
    {
      if cn == r.commonName {
        assert LatestFor(t, cn, |s.history|);
      } else {
        var i :| LatestFor(s, cn, i) && s.history[i].cert == s.registry.devices[cn].cert;
        assert LatestFor(t, cn, i);
      }
    }
  }

  lemma AddsSessions(c: Config, s: Server, t: Server, id: nat, how: How)
    requires Inv(c, s) && Adds(c, s, t, id, how) && Quiet(s, t.(registry := s.registry, history := s.history), id)
    requires t.lock == s.lock && SessionOk(c, t, id, t.sessions[id]) && !HoldsSpent(t.sessions[id].pc)
    requires how.ByToken? ==> s.sessions[id].pc == Admitted(Some(how.token))
    ensures SessionsOk(c, t) && SpentApart(t)
  {
    forall k | k in t.sessions
      ensures SessionOk(c, t, k, t.sessions[k])
    {
      if k != id {
        assert SessionOk(c, s, k, s.sessions[k]) && t.sessions[k] == s.sessions[k];
        if HoldsSpent(t.sessions[k].pc) {
          var token := t.sessions[k].pc.spent.value;
          if InHistory(t, token) {
            var i :| 0 <= i < |t.history| && t.history[i].how == ByToken(token);
            if i < |s.history| { assert s.history[i].how == ByToken(token); }
          }
        }
      }
    }
  }

  lemma InsertKeeps(c: Config, s: Server, t: Server, id: nat, how: How)
    requires Inv(c, s) && Adds(c, s, t, id, how) && Quiet(s, t.(registry := s.registry, history := s.history), id)
    requires t.lock == s.lock && SessionOk(c, t, id, t.sessions[id]) && !HoldsSpent(t.sessions[id].pc)
    requires how.ByToken? ==> s.sessions[id].pc == Admitted(Some(how.token))
    requires BootstrapOk(c, t)
    ensures Inv(c, t)
  {
    AddsEntries(c, s, t, id, how);
    AddsDevices(c, s, t, id, how);
    AddsSessions(c, s, t, id, how);
  }

  /** Enrolling another name leaves the admin's state alone. */
  lemma PasswordInsertKeeps(c: Config, s: Server, id: nat, t: Server)
    requires Inv(c, s) && id in s.sessions && s.sessions[id].pc.Cleared?
    requires t == Goes(Inserts(s, id, ByPassword(s.sessions[id].pc.proof)), id, Finished(Enrolled))
    ensures Inv(c, t)
  {
    assert SessionOk(c, s, id, s.sessions[id]);
    NotLockHolder(c, s, id);
    InsertKeeps(c, s, t, id, ByPassword(s.sessions[id].pc.proof));
  }

  lemma NewInsertKeeps(c: Config, s: Server, id: nat, t: Server)
    requires Inv(c, s) && id in s.sessions && s.sessions[id].pc.Admitted?
    requires s.sessions[id].request.commonName !in s.registry.devices
    requires var spent := s.sessions[id].pc.spent;
      t == Goes(Inserts(s, id, if spent.Some? then ByToken(spent.value) else Freely), id, Finished(Enrolled))
    ensures Inv(c, t)
  {
    var spent := s.sessions[id].pc.spent;
    assert SessionOk(c, s, id, s.sessions[id]);
    NotLockHolder(c, s, id);
    InsertKeeps(c, s, t, id, if spent.Some? then ByToken(spent.value) else Freely);
  }

  lemma AdminInsertKeeps(c: Config, s: Server, id: nat, presented: Name, t: Server)
    requires Inv(c, s) && id in s.sessions && s.sessions[id].pc == AdminHolds(presented) && s.bootstrap == Some(presented)
    requires s.sessions[id].request.commonName !in s.registry.devices
    requires t == Goes(Inserts(s, id, ByBootstrap(presented)), id, AdminInserted)
    ensures Inv(c, t)
  {
    assert SessionOk(c, s, id, s.sessions[id]);
    InsertKeeps(c, s, t, id, ByBootstrap(presented));
  }

  lemma AdminWaitsKeeps(c: Config, s: Server, id: nat, t: Server)
    requires Inv(c, s) && Advances(c, s, id, t) && s.sessions[id].pc.AdminWaits?
    ensures Inv(c, t)
  {
    assert SessionOk(c, s, id, s.sessions[id]);
    NotLockHolder(c, s, id);
    QuietKeeps(c, s, t, id);
  }

  /** Refused, or failed to insert: the token is kept and the lock released. */
  lemma AdminReleaseKeeps(c: Config, s: Server, id: nat, outcome: Outcome)
    requires Inv(c, s) && id in s.sessions && s.sessions[id].pc.AdminHolds?
    ensures Inv(c, Goes(Unlocks(s), id, Finished(outcome)))
  {
    assert SessionOk(c, s, id, s.sessions[id]);
    QuietKeeps(c, s, Goes(Unlocks(s), id, Finished(outcome)), id);
  }

  lemma {:induction false} AdminHoldsKeeps(c: Config, s: Server, id: nat, t: Server)
    requires Inv(c, s) && Advances(c, s, id, t) && s.sessions[id].pc.AdminHolds?
    ensures Inv(c, t)
  {
    if t.history != s.history {
      AdminInsertKeeps(c, s, id, s.sessions[id].pc.presented, t);
    } else {
      AdminReleaseKeeps(c, s, id, t.sessions[id].pc.outcome);
    }
  }

  lemma AdminInsertedKeeps(c: Config, s: Server, id: nat, t: Server)
    requires Inv(c, s) && Advances(c, s, id, t) && s.sessions[id].pc.AdminInserted?
    ensures Inv(c, t)
  {
    assert SessionOk(c, s, id, s.sessions[id]);
    QuietKeeps(c, s, t, id);
  }

  lemma AdminClearedKeeps(c: Config, s: Server, id: nat, t: Server)
    requires Inv(c, s) && Advances(c, s, id, t) && s.sessions[id].pc.AdminCleared?
    ensures Inv(c, t)
  {
    assert SessionOk(c, s, id, s.sessions[id]);
    QuietKeeps(c, s, t, id);
  }

  lemma LoginStepKeeps(c: Config, s: Server, id: nat, t: Server)
    requires Inv(c, s) && Advances(c, s, id, t) && s.sessions[id].pc.Login?
    ensures Inv(c, t)
  {
    var pc := s.sessions[id].pc;
    assert SessionOk(c, s, id, s.sessions[id]);
    NotLockHolder(c, s, id);
    if t.proofs != s.proofs {
      LoginKeeps(c, s, id, pc.username, pc.password, t);
    } else {
      AdvanceQuietly(c, s, id, t.sessions[id].pc);
    }
  }

  lemma ClearedStepKeeps(c: Config, s: Server, id: nat, t: Server)
    requires Inv(c, s) && Advances(c, s, id, t) && s.sessions[id].pc.Cleared?
    ensures Inv(c, t)
  {
    var pc := s.sessions[id].pc;
    assert SessionOk(c, s, id, s.sessions[id]);
    NotLockHolder(c, s, id);
    if t.history != s.history {
      PasswordInsertKeeps(c, s, id, t);
    } else {
      AdvanceQuietly(c, s, id, t.sessions[id].pc);
    }
  }

  lemma AdmittedStepKeeps(c: Config, s: Server, id: nat, t: Server)
    requires Inv(c, s) && Advances(c, s, id, t) && s.sessions[id].pc.Admitted?
    ensures Inv(c, t)
  {
    var pc := s.sessions[id].pc;
    assert SessionOk(c, s, id, s.sessions[id]);
    NotLockHolder(c, s, id);
    if t.history != s.history {
      NewInsertKeeps(c, s, id, t);
    } else {
      AdvanceQuietly(c, s, id, t.sessions[id].pc);
    }
  }

  lemma NewIdentityStepKeeps(c: Config, s: Server, id: nat, t: Server)
    requires Inv(c, s) && Advances(c, s, id, t) && s.sessions[id].pc.NewIdentity?
    ensures Inv(c, t)
  {
    var pc := s.sessions[id].pc;
    assert SessionOk(c, s, id, s.sessions[id]);
    NotLockHolder(c, s, id);
    if t.sessions[id].pc.Admitted? && c.lockedDown {
      ConsumeKeeps(c, s, id, pc.token.value, t);
    } else {
      AdvanceQuietly(c, s, id, t.sessions[id].pc);
    }
  }

  /** A step of a session that does not hold the bootstrap lock. */
  lemma UnlockedKeeps(c: Config, s: Server, id: nat, t: Server)
    requires Inv(c, s) && Advances(c, s, id, t)
    requires var pc := s.sessions[id].pc; !pc.AdminWaits? && !pc.AdminHolds? && !pc.AdminInserted? && !pc.AdminCleared?
    ensures Inv(c, t)
  {
    var pc := s.sessions[id].pc;
    if pc.Login? {
      LoginStepKeeps(c, s, id, t);
    } else if pc.Cleared? {
      ClearedStepKeeps(c, s, id, t);
    } else if pc.Admitted? {
      AdmittedStepKeeps(c, s, id, t);
    } else if pc.NewIdentity? {
      NewIdentityStepKeeps(c, s, id, t);
    } else {
      assert SessionOk(c, s, id, s.sessions[id]);
      NotLockHolder(c, s, id);
      AdvanceQuietly(c, s, id, t.sessions[id].pc);
    }
  }

  lemma AdvanceKeeps(c: Config, s: Server, id: nat, t: Server)
    requires Inv(c, s) && Advances(c, s, id, t)
    ensures Inv(c, t)
  {
    var pc := s.sessions[id].pc;
    if pc.AdminWaits? {
      AdminWaitsKeeps(c, s, id, t);
    } else if pc.AdminHolds? {
      AdminHoldsKeeps(c, s, id, t);
    } else if pc.AdminInserted? {
      AdminInsertedKeeps(c, s, id, t);
    } else if pc.AdminCleared? {
      AdminClearedKeeps(c, s, id, t);
    } else {
      UnlockedKeeps(c, s, id, t);
    }
  }

  // ----- Everything else -----

  lemma ArriveKeeps(c: Config, s: Server, r: Request, t: Server)
    requires Inv(c, s) && Arrives(s, r, t)
    ensures Inv(c, t)
  {
    forall k | k in t.sessions
      ensures SessionOk(c, t, k, t.sessions[k])
    {
      if k in s.sessions {
        assert SessionOk(c, s, k, s.sessions[k]);
        if HoldsSpent(s.sessions[k].pc) {
          assert InHistory(t, s.sessions[k].pc.spent.value) == InHistory(s, s.sessions[k].pc.spent.value);
        }
      }
    }
    HistoryKept(c, s, t);
  }

  lemma AdministerKeeps(c: Config, s: Server, t: Server)
    requires Inv(c, s) && SpentStays(s, t)
    requires t.running == s.running && t.sessions == s.sessions && t.nextSession == s.nextSession && t.lock == s.lock
    requires t.bootstrap == s.bootstrap && t.file == s.file && t.proofs == s.proofs && t.history == s.history
    requires t.registry.devices.Keys == s.registry.devices.Keys
    requires forall cn :: cn in s.registry.devices ==> t.registry.devices[cn].cert == s.registry.devices[cn].cert
    ensures Inv(c, t)
  {
    HistoryKept(c, s, t);
    forall k | k in t.sessions
      ensures SessionOk(c, t, k, t.sessions[k])
    {
      assert SessionOk(c, s, k, s.sessions[k]);
      if HoldsSpent(s.sessions[k].pc) {
        assert InHistory(t, s.sessions[k].pc.spent.value) == InHistory(s, s.sessions[k].pc.spent.value);
      }
    }
  }

  lemma TokenAdminKeeps(c: Config, s: Server, e: Tokens.Event, t: Server)
    requires Inv(c, s) && AdministersToken(s, e, t)
    ensures Inv(c, t)
  {
    forall token, cn | SpentBy(s, token, cn)
      ensures SpentBy(t, token, cn)
    {
    }
    AdministerKeeps(c, s, t);
  }

  lemma RegistryAdminKeeps(c: Config, s: Server, e: Registry.Event, t: Server)
    requires Inv(c, s) && AdministersRegistry(s, e, t)
    ensures Inv(c, t)
  {
    AdministerKeeps(c, s, t);
  }

  lemma AdministersKeeps(c: Config, s: Server, t: Server)
    requires Inv(c, s) && Administers(s, t)
    ensures Inv(c, t)
  {
    if e: Tokens.Event :| AdministersToken(s, e, t) {
      TokenAdminKeeps(c, s, e, t);
    } else if e: Registry.Event :| AdministersRegistry(s, e, t) {
      RegistryAdminKeeps(c, s, e, t);
    } else {
      AdministerKeeps(c, s, t);
    }
  }

  lemma CrashKeeps(c: Config, s: Server, t: Server)
    requires Inv(c, s) && Crashes(s, t)
    ensures Inv(c, t)
  {
    HistoryKept(c, s, t);
  }

  lemma StartKeeps(c: Config, s: Server, random: Name, t: Server)
    requires Inv(c, s) && Starts(c, s, random, t)
    ensures Inv(c, t)
  {
    HistoryKept(c, s, t);
  }

  lemma NextKeeps(c: Config, s: Server, t: Server)
    requires Inv(c, s) && Next(c, s, t)
    ensures Inv(c, t)
  {
    if id :| Advances(c, s, id, t) {
      AdvanceKeeps(c, s, id, t);
    } else if r :| Arrives(s, r, t) {
      ArriveKeeps(c, s, r, t);
    } else if Administers(s, t) {
      AdministersKeeps(c, s, t);
    } else if Crashes(s, t) {
      CrashKeeps(c, s, t);
    } else {
      var random :| Starts(c, s, random, t);
      StartKeeps(c, s, random, t);
    }
  }

  lemma {:induction false} RunInv(c: Config, run: seq<Server>, n: nat)
    requires IsRun(c, run) && n < |run|
    ensures Inv(c, run[n])
  {
    if n == 0 {
      InitInv(c, run[0]);
    } else {
      RunInv(c, run, n - 1);
      assert StepOf(c, run, n);
      NextKeeps(c, run[n - 1], run[n]);
    }
  }

  // ----- The theorems -----

  /** Where enrolling needs a token: every enrollment that neither a password nor the
      bootstrap token backs was paid for with a token consumed by that very name, and no two
      with the same token. */
  lemma TokensPayForEnrollments(c: Config, run: seq<Server>, n: nat, i: nat, j: nat)
    requires IsRun(c, run) && n < |run| && c.lockedDown
    requires var s := run[n];
      && i < |s.history| && !s.history[i].how.ByPassword? && !IsAdmin(c, s.history[i].commonName)
      && j < |s.history| && !s.history[j].how.ByPassword? && !IsAdmin(c, s.history[j].commonName)
    ensures var s := run[n];
      && s.history[i].how.ByToken? && SpentBy(s, s.history[i].how.token, s.history[i].commonName)
      && (i != j ==> s.history[i].how != s.history[j].how)
  {
    RunInv(c, run, n);
    var s := run[n];
    assert EntryOk(c, s, s.history[i]) && EntryOk(c, s, s.history[j]);
  }

  /** A name is created at most once: any later enrollment of it is backed by a password
      verified for that name. */
  lemma CreatedAtMostOnce(c: Config, run: seq<Server>, n: nat, i: nat, j: nat)
    requires IsRun(c, run) && n < |run| && i < j < |run[n].history|
    requires run[n].history[i].commonName == run[n].history[j].commonName
    ensures var e := run[n].history[j];
      e.how.ByPassword? && ProvedBy(run[n], e.how.proof, e.session, e.commonName)
  {
    RunInv(c, run, n);
    assert EntryOk(c, run[n], run[n].history[j]);
  }

  /** The admin is enrolled at most once, and only with the bootstrap token. */
  lemma AdminEnrolledAtMostOnce(c: Config, run: seq<Server>, n: nat, i: nat)
    requires IsRun(c, run) && n < |run| && i < |run[n].history| && IsAdmin(c, run[n].history[i].commonName)
    ensures run[n].history[i].how.ByBootstrap?
    ensures forall j :: 0 <= j < |run[n].history| && j != i ==> !IsAdmin(c, run[n].history[j].commonName)
  {
    RunInv(c, run, n);
    assert EntryOk(c, run[n], run[n].history[i]);
    forall j | 0 <= j < |run[n].history| && j != i
      ensures !IsAdmin(c, run[n].history[j].commonName)
    {
      assert EntryOk(c, run[n], run[n].history[j]);
    }
  }

  /** While the server runs and nobody holds the lock, the bootstrap token is outstanding
      exactly while the admin is not enrolled, and then the file holds it. */
  lemma TokenOutstandingIffNotEnrolled(c: Config, run: seq<Server>, n: nat)
    requires IsRun(c, run) && n < |run| && c.admin.Some? && run[n].running && run[n].lock.None?
    ensures run[n].bootstrap.Some? <==> c.admin.value !in run[n].registry.devices
    ensures run[n].bootstrap.Some? ==> run[n].file == Holds(run[n].bootstrap.value)
  {
    RunInv(c, run, n);
  }

  // ----- What a step may change -----

  ghost predicate Extends(s: Server, t: Server) {
    && s.registry.devices.Keys <= t.registry.devices.Keys
    && (t.history == s.history || (|t.history| == |s.history| + 1 && s.history <= t.history))
  }

  lemma InsertsExtend(s: Server, id: nat, how: How)
    requires id in s.sessions
    ensures Extends(s, Inserts(s, id, how))
  {
  }

  /** What a request at this position may insert. */
  ghost function Backing(pc: Pc): How {
    match pc
    case Cleared(_, proof) => ByPassword(proof)
    case Admitted(spent) => if spent.Some? then ByToken(spent.value) else Freely
    case AdminHolds(presented) => ByBootstrap(presented)
    case _ => Freely
  }

  ghost predicate SameRecords(s: Server, t: Server) {
    t.registry == s.registry && t.history == s.history
  }

  lemma InsertingStep(c: Config, s: Server, id: nat, t: Server)
    requires Advances(c, s, id, t)
    requires s.sessions[id].pc.Cleared? || s.sessions[id].pc.Admitted? || s.sessions[id].pc.AdminHolds?
    ensures SameRecords(s, t) || SameRecords(Inserts(s, id, Backing(s.sessions[id].pc)), t)
  {
  }

  lemma OtherStep(c: Config, s: Server, id: nat, t: Server)
    requires Advances(c, s, id, t)
    requires !s.sessions[id].pc.Cleared? && !s.sessions[id].pc.Admitted? && !s.sessions[id].pc.AdminHolds?
    ensures SameRecords(s, t)
  {
  }

  lemma AdvanceExtends(c: Config, s: Server, id: nat, t: Server)
    requires Advances(c, s, id, t)
    ensures Extends(s, t)
  {
    var pc := s.sessions[id].pc;
    InsertsExtend(s, id, Backing(pc));
    if pc.Cleared? || pc.Admitted? || pc.AdminHolds? {
      InsertingStep(c, s, id, t);
    } else {
      OtherStep(c, s, id, t);
    }
  }

  lemma {:induction false} OtherExtends(c: Config, s: Server, t: Server)
    requires Administers(s, t) || Crashes(s, t) || (exists r :: Arrives(s, r, t)) || (exists random :: Starts(c, s, random, t))
    ensures Extends(s, t) && t.history == s.history && t.proofs == s.proofs
  {
  }

  /** A step adds at most one entry to the history, and no name ever leaves the registry. */
  lemma NextExtends(c: Config, s: Server, t: Server)
    requires Next(c, s, t)
    ensures Extends(s, t)
  {
    if id :| Advances(c, s, id, t) {
      AdvanceExtends(c, s, id, t);
    } else {
      OtherExtends(c, s, t);
    }
  }

  /** The certificate on record is that of the latest enrollment. */
  lemma CertIsLatest(s: Server, cn: Name, i: int)
    requires DevicesOk(s) && cn in s.registry.devices && LatestFor(s, cn, i)
    ensures s.registry.devices[cn].cert == s.history[i].cert
  {
    var k :| LatestFor(s, cn, k) && s.history[k].cert == s.registry.devices[cn].cert;
    assert k == i;
  }

  lemma RunHistory(c: Config, run: seq<Server>, n: nat)
    requires IsRun(c, run) && n < |run|
    ensures DevicesOk(run[n]) && NewOnce(run[n]) && HistoryOk(c, run[n])
  {
    RunInv(c, run, n);
  }

  lemma {:induction false} RunExtends(c: Config, run: seq<Server>, n: nat)
    requires IsRun(c, run) && 0 < n < |run|
    ensures Extends(run[n - 1], run[n]) && ProofsExtend(run[n - 1], run[n])
  {
    RunSessions(c, run, n - 1);
    assert StepOf(c, run, n);
    NextExtends(c, run[n - 1], run[n]);
    NextExtendsProofs(c, run[n - 1], run[n]);
  }

  lemma RunSessions(c: Config, run: seq<Server>, n: nat)
    requires IsRun(c, run) && n < |run|
    ensures SessionsOk(c, run[n])
  {
    RunInv(c, run, n);
  }

  lemma {:induction false} CertStep(s: Server, t: Server, cn: Name)
    requires DevicesOk(s) && DevicesOk(t) && NewOnce(t) && Extends(s, t) && cn in s.registry.devices
    ensures t.registry.devices[cn].cert != s.registry.devices[cn].cert ==>
      && |t.history| == |s.history| + 1
      && var e := t.history[|s.history|];
         e.commonName == cn && e.cert == t.registry.devices[cn].cert && e.how.ByPassword?
  {
    var m := |s.history|;
    var i :| LatestFor(s, cn, i) && s.history[i].cert == s.registry.devices[cn].cert;
    if |t.history| == m || t.history[m].commonName != cn {
      assert LatestFor(t, cn, i);
      CertIsLatest(t, cn, i);
    } else {
      assert LatestFor(t, cn, m) && t.history[i].commonName == cn;
      CertIsLatest(t, cn, m);
    }
  }

  /** An enrolled name never disappears, and its certificate changes only in the step of a
      request that proved the password of that very name. */
  lemma CertificateChangesByPassword(c: Config, run: seq<Server>, n: nat, cn: Name)
    requires IsRun(c, run) && 0 < n < |run| && cn in run[n - 1].registry.devices
    ensures cn in run[n].registry.devices
    ensures run[n].registry.devices[cn].cert != run[n - 1].registry.devices[cn].cert ==>
      && |run[n].history| == |run[n - 1].history| + 1
      && var e := run[n].history[|run[n - 1].history|];
         && e.commonName == cn && e.cert == run[n].registry.devices[cn].cert
         && e.how.ByPassword? && ProvedBy(run[n], e.how.proof, e.session, cn)
  {
    var s, t := run[n - 1], run[n];
    RunHistory(c, run, n - 1);
    RunHistory(c, run, n);
    RunExtends(c, run, n);
    CertStep(s, t, cn);
    if |t.history| == |s.history| + 1 { assert EntryOk(c, t, t.history[|s.history|]); }
  }

  /** The accounts accepted the very password the request presented. */
  ghost predicate ProofTrueAt(s: Server, p: Proof) {
    && p.username in s.accounts && s.accounts[p.username] == p.password
    && p.session in s.sessions && Presents(s.sessions[p.session].request, p.username, p.password)
  }

  ghost predicate ProofsExtend(s: Server, t: Server) {
    || t.proofs == s.proofs
    || (|t.proofs| == |s.proofs| + 1 && s.proofs <= t.proofs && ProofTrueAt(s, t.proofs[|s.proofs|]))
  }

  lemma NextExtendsProofs(c: Config, s: Server, t: Server)
    requires SessionsOk(c, s) && Next(c, s, t)
    ensures ProofsExtend(s, t)
  {
    if id :| Advances(c, s, id, t) {
      assert SessionOk(c, s, id, s.sessions[id]);
    } else {
      OtherExtends(c, s, t);
    }
  }

  /** Every proof stands for an earlier moment at which the accounts accepted the very
      password that request presented. */
  lemma {:induction false} ProofsWereTrue(c: Config, run: seq<Server>, n: nat, k: nat)
    requires IsRun(c, run) && n < |run| && k < |run[n].proofs|
    ensures exists m :: 0 <= m < n && ProofTrueAt(run[m], run[n].proofs[k])
  {
    if n > 0 {
      RunExtends(c, run, n);
      if k < |run[n - 1].proofs| { ProofsWereTrue(c, run, n - 1, k); }
    }
  }

  lemma FileKept(c: Config, s: Server, t: Server, token: Name)
    requires Inv(c, s) && Next(c, s, t) && c.admin.Some?
    requires s.file == Holds(token) && c.admin.value !in t.registry.devices
    ensures t.file == Holds(token)
  {
    NextExtends(c, s, t);
    if id :| Advances(c, s, id, t) {
      assert SessionOk(c, s, id, s.sessions[id]);
    }
  }

  /** Until the admin is enrolled the token an operator copied from the file stays the one
      that works, through any crashes and restarts. */
  lemma {:induction false} BootstrapTokenStays(c: Config, run: seq<Server>, n: nat, m: nat, token: Name)
    requires IsRun(c, run) && n <= m < |run| && c.admin.Some?
    requires run[n].file == Holds(token) && c.admin.value !in run[m].registry.devices
    ensures run[m].file == Holds(token)
    ensures run[m].running && run[m].lock.None? ==> run[m].bootstrap == Some(token)
    decreases m
  {
    RunInv(c, run, m);
    if n < m {
      RunInv(c, run, m - 1);
      assert StepOf(c, run, m);
      NextExtends(c, run[m - 1], run[m]);
      BootstrapTokenStays(c, run, n, m - 1, token);
      FileKept(c, run[m - 1], run[m], token);
    }
  }
}
