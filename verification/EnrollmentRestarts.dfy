/**
 Starts that cannot read a log. The server then takes the log for a new one; what the runs of
 the enrollment protocol keep survives exactly if nothing in that log mattered yet.
 */
module EnrollmentRestarts {
  import opened Common
  import Registry
  import opened Enrollment
  import opened EnrollmentSafety

  /** The server as a start sees it that could or could not read the registry and the tokens. */
  ghost function Seen(s: Server, registryRead: bool, tokensRead: bool): Server {
    s.(registry := if registryRead then s.registry else Registry.EMPTY,
       tokens := if tokensRead then s.tokens else map[])
  }

  ghost predicate EnrolledByToken(s: Server) {
    exists i :: 0 <= i < |s.history| && s.history[i].how.ByToken?
  }

  /** Nothing that could not be read was ever relied on. */
  ghost predicate NothingLost(s: Server, registryRead: bool, tokensRead: bool) {
    (registryRead || s.history == []) && (tokensRead || !EnrolledByToken(s))
  }

  lemma {:induction false} LossShows(c: Config, s: Server, registryRead: bool, tokensRead: bool, t: Server)
    requires Inv(c, t) && t.history == s.history
    requires (!registryRead ==> t.registry == Registry.EMPTY) && (!tokensRead ==> t.tokens == map[])
    ensures NothingLost(s, registryRead, tokensRead)
  {
    if s.history != [] {
      assert t.history[0].commonName in t.registry.devices;
    }
    if i :| 0 <= i < |s.history| && s.history[i].how.ByToken? {
      assert EntryOk(c, t, t.history[i]);
    }
  }

  /** While stopped, the invariant survives losing sight of a log exactly if nothing was lost. */
  lemma {:induction false} SeenKeepsIff(c: Config, s: Server, registryRead: bool, tokensRead: bool)
    requires Inv(c, s) && !s.running
    ensures Inv(c, Seen(s, registryRead, tokensRead)) <==> NothingLost(s, registryRead, tokensRead)
  {
    var t := Seen(s, registryRead, tokensRead);
    if NothingLost(s, registryRead, tokensRead) {
      forall i | 0 <= i < |t.history|
        ensures EntryOk(c, t, t.history[i])
      {
        assert EntryOk(c, s, s.history[i]);
      }
      DevicesSeen(s, t);
    }
    if Inv(c, t) {
      LossShows(c, s, registryRead, tokensRead, t);
    }
  }

  lemma {:induction false} DevicesSeen(s: Server, t: Server)
    requires DevicesOk(s) && t.history == s.history
    requires t.registry == s.registry || (t.registry == Registry.EMPTY && s.history == [])
    ensures DevicesOk(t)
  {
    forall cn | cn in t.registry.devices
      ensures exists i :: LatestFor(t, cn, i) && t.history[i].cert == t.registry.devices[cn].cert
    {
      var i :| LatestFor(s, cn, i) && s.history[i].cert == s.registry.devices[cn].cert;
      assert LatestFor(t, cn, i);
    }
  }

  /** So a start keeps what the runs keep exactly if nothing was lost. */
  lemma {:induction false} StartKeepsIff(c: Config, s: Server, registryRead: bool, tokensRead: bool, random: Name, t: Server)
    requires Inv(c, s) && Starts(c, Seen(s, registryRead, tokensRead), random, t)
    ensures Inv(c, t) <==> NothingLost(s, registryRead, tokensRead)
  {
    var seen := Seen(s, registryRead, tokensRead);
    SeenKeepsIff(c, s, registryRead, tokensRead);
    if Inv(c, seen) {
      StartKeeps(c, seen, random, t);
    }
    if Inv(c, t) {
      LossShows(c, s, registryRead, tokensRead, t);
    }
  }

  /** A start that cannot read the registry offers a bootstrap token although the admin was
      enrolled. */
  lemma {:induction false} AdminForgotten(c: Config, s: Server, i: nat, random: Name, t: Server)
    requires Inv(c, s) && i < |s.history| && IsAdmin(c, s.history[i].commonName)
    requires Starts(c, Seen(s, false, true), random, t) && t.running
    ensures t.bootstrap.Some? && c.admin.value !in t.registry.devices && c.admin.value in s.registry.devices
  {
    assert s.history[i].commonName in s.registry.devices;
  }
}
