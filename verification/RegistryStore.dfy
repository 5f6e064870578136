/** The device registry: its state is the fold of its log. */
module RegistryStores {
  import opened Common
  import opened EventLogs
  import opened Registry

  class DeviceRegistry {
    var state: State
    const log: EventLog<Event>

    ghost predicate Valid()
      reads this, log
    {
      state == StateAfter(Events(log.lines))
    }

    constructor (state: State, log: EventLog<Event>)
      ensures this.state == state && this.log == log
    {
      this.state := state;
      this.log := log;
    }

    /** A restart: the state is rebuilt by replaying the file, and is the file's exactly if the
        file could be read or its events lead back to an empty store. */
    static method LoadOrCreate(file: LogFile<Event>) returns (registry: Result<DeviceRegistry, LogError>)
      ensures registry.Ok? <==> Garbage !in LinesSeen(file)
      ensures registry.Ok? ==>
        && fresh(registry.value) && fresh(registry.value.log)
        && registry.value.log.lines == LinesIn(file)
        && registry.value.state == StateAfter(Events(LinesSeen(file)))
        && (registry.value.Valid() <==> !file.Unreadable? || StateAfter(Events(file.hidden)) == EMPTY)
    {
      var log, state := EventLog.OpenAndReplay(file, EMPTY, Apply);
      if log.Err? { return Err(log.error); }
      var loaded := new DeviceRegistry(state, log.value);
      registry := Ok(loaded);
    }

    method Record(e: Event) returns (ok: bool)
      requires Valid()
      modifies this`state, log
      ensures Valid()
      ensures ok ==> state == Apply(old(state), e) && log.lines == old(log.lines) + [EventLogs.Record(e)]
      ensures !ok ==> state == old(state) && log.lines == old(log.lines)
    {
      ok := log.Append(e);
      if ok {
        EventsAppend(old(log.lines), e);
        FoldAppend(Apply, EMPTY, Events(old(log.lines)), e);
        state := Apply(state, e);
      }
    }

    /** Creates or rotates an identity. */
    method Enroll(commonName: Name, cert: Name, now: int, clientUid: Option<Name>) returns (r: Result<Device, Error>)
      requires Valid()
      modifies this`state, log
      ensures Valid()
      ensures r.Ok? ==>
        && state == Apply(old(state), Enrolled(commonName, cert, now, clientUid))
        && r.value.cert == cert
        && r.value.revoked == (commonName in old(state).devices && old(state).devices[commonName].revoked)
      ensures r.Err? ==> r.error == LogFailed && state == old(state)
    {
      var ok := Record(Enrolled(commonName, cert, now, clientUid));
      if !ok { return Err(LogFailed); }
      r := Ok(state.devices[commonName]);
    }

    /** Creates an identity, never replaces one. */
    method EnrollNew(commonName: Name, cert: Name, now: int, clientUid: Option<Name>) returns (r: Result<Device, Error>)
      requires Valid()
      modifies this`state, log
      ensures Valid()
      ensures r.Ok? ==>
        commonName !in old(state).devices && state == Apply(old(state), Enrolled(commonName, cert, now, clientUid))
      ensures r.Err? ==> state == old(state)
      ensures commonName in old(state).devices ==> r == Err(AlreadyEnrolled)
      ensures commonName !in old(state).devices && r.Err? ==> r.error == LogFailed
    {
      if commonName in state.devices { return Err(AlreadyEnrolled); }
      r := Enroll(commonName, cert, now, clientUid);
    }

    method Block(commonName: Name) returns (r: Result<(), Error>)
      requires Valid()
      modifies this`state, log
      ensures Valid()
      ensures r == Err(NotFound) <==> commonName !in old(state).devices
      ensures r.Ok? ==> state == Apply(old(state), Revoked(commonName))
      ensures r.Err? ==> state == old(state)
      ensures r.Ok? ==> forall fp :: AccessOf(state, commonName, fp) == Blocked
    {
      if commonName !in state.devices { return Err(NotFound); }
      var ok := Record(Revoked(commonName));
      r := if ok then Ok(()) else Err(LogFailed);
    }

    method Unblock(commonName: Name) returns (r: Result<(), Error>)
      requires Valid()
      modifies this`state, log
      ensures Valid()
      ensures r == Err(NotFound) <==> commonName !in old(state).devices
      ensures r.Ok? ==> state == Apply(old(state), Unblocked(commonName))
      ensures r.Err? ==> state == old(state)
      ensures r.Ok? ==> forall fp :: fp in old(state).revokedCerts ==> AccessOf(state, commonName, fp) == CertIsRevoked
    {
      if commonName !in state.devices { return Err(NotFound); }
      var ok := Record(Unblocked(commonName));
      r := if ok then Ok(()) else Err(LogFailed);
    }

    /** Idempotent: an already revoked fingerprint keeps its date and records nothing. */
    method RevokeCert(fingerprint: Option<Name>, now: int) returns (r: Result<(), Error>)
      requires Valid()
      modifies this`state, log
      ensures Valid()
      ensures r == Err(InvalidFingerprint) <==> fingerprint.None?
      ensures r.Ok? ==>
        && state == Apply(old(state), CertRevoked(fingerprint.value, now))
        && forall cn :: AccessOf(state, cn, fingerprint.value) != Allowed
      ensures r.Err? ==> state == old(state)
    {
      if fingerprint.None? { return Err(InvalidFingerprint); }
      if fingerprint.value !in state.revokedCerts {
        var ok := Record(CertRevoked(fingerprint.value, now));
        if !ok { return Err(LogFailed); }
      }
      r := Ok(());
    }

    /** Removes rows; the ids that existed come back, in the order given. Devices, blocks and
        revocations are left alone. */
    method DeleteCerts(ids: seq<int>) returns (r: Result<seq<int>, Error>)
      requires Valid()
      modifies this`state, log
      ensures Valid()
      ensures state == old(state).(certificates := state.certificates)
      ensures forall row :: row in state.certificates ==> row in old(state).certificates
      ensures r.Ok? ==>
        && (forall id :: id in r.value <==> id in ids && HasCert(old(state), id))
        && (forall row :: row in state.certificates <==> row in old(state).certificates && row.id !in ids)
    {
      var deleted: seq<int> := [];
      for k := 0 to |ids|
        invariant Valid()
        invariant state == old(state).(certificates := state.certificates)
        invariant forall row :: row in state.certificates <==> row in old(state).certificates && row.id !in ids[..k]
        invariant forall id :: id in deleted <==> id in ids[..k] && HasCert(old(state), id)
      {
        var id := ids[k];
        assert ids[..k + 1] == ids[..k] + [id];
        if HasCert(state, id) {
          WithoutIdSpec(state.certificates, id);
          var ok := Record(CertDeleted(id));
          if !ok { return Err(LogFailed); }
          deleted := deleted + [id];
        }
      }
      assert ids[..|ids|] == ids;
      r := Ok(deleted);
    }

    method GetAccess(commonName: Name, fingerprint: Name) returns (access: Access)
      requires Valid()
      ensures access == Allowed <==>
        !BlockedBy(Events(log.lines), commonName) && !EverRevoked(Events(log.lines), fingerprint)
      ensures access == Blocked <==> BlockedBy(Events(log.lines), commonName)
    {
      access := AccessOf(state, commonName, fingerprint);
      AccessReadsLog(Events(log.lines), commonName, fingerprint);
      StateReadsLog(Events(log.lines));
      assert DeviceReads(state, Events(log.lines), commonName);
      BlockImpliesEnrolled(Events(log.lines), commonName);
    }
  }

  // ----- Restarts -----

  /** A revocation in the file outlasts a restart and whatever follows it exactly if the file
      could be read; otherwise only what follows counts. */
  lemma {:induction false} RevocationOverRestart(file: LogFile<Event>, later: seq<Event>, fingerprint: Name, commonName: Name)
    requires EverRevoked(Events(LinesIn(file)), fingerprint)
    ensures AccessOf(StateAfter(Events(LinesSeen(file)) + later), commonName, fingerprint) == Allowed <==>
            file.Unreadable? && !BlockedBy(later, commonName) && !EverRevoked(later, fingerprint)
  {
    if file.Readable? {
      RevokedForGood(Events(LinesSeen(file)), later, fingerprint, commonName);
    } else {
      assert Events(LinesSeen(file)) + later == later;
      AccessReadsLog(later, commonName, fingerprint);
    }
  }

  /** The same of a block that nothing lifts. */
  lemma {:induction false} BlockOverRestart(file: LogFile<Event>, later: seq<Event>, commonName: Name, fingerprint: Name)
    requires BlockedBy(Events(LinesIn(file)), commonName) && Unblocked(commonName) !in later
    ensures AccessOf(StateAfter(Events(LinesSeen(file)) + later), commonName, fingerprint) == Blocked <==>
            file.Readable? || BlockedBy(later, commonName)
  {
    if file.Readable? {
      BlockHoldsUntilLifted(Events(LinesSeen(file)), later, commonName, fingerprint);
    } else {
      assert Events(LinesSeen(file)) + later == later;
      StateReadsLog(later);
      assert DeviceReads(StateAfter(later), later, commonName);
      BlockImpliesEnrolled(later, commonName);
    }
  }

  /** A log that cannot be read: the certificate it revokes is let in after the restart. */
  lemma {:induction false} UnreadableLogForgets(commonName: Name, fingerprint: Name, at: int)
    ensures var file := Unreadable([EventLogs.Record(CertRevoked(fingerprint, at))]);
      && AccessOf(StateAfter(Events(LinesIn(file))), commonName, fingerprint) != Allowed
      && AccessOf(StateAfter(Events(LinesSeen(file))), commonName, fingerprint) == Allowed
      && StateAfter(Events(file.hidden)) != EMPTY
  {
    var revoke := CertRevoked(fingerprint, at);
    EventsAppend([], revoke);
    assert [] + [EventLogs.Record(revoke)] == [EventLogs.Record(revoke)] && [] + [revoke] == [revoke];
    FoldAppend(Apply, EMPTY, [], revoke);
  }
}
