/**
 What the answers of the enrollment protocol mean: an enrollment stands exactly for a request
 that was told so, with the credential that request presented, and a request left alone is
 enrolled exactly if its credentials are right.
 */
module EnrollmentAnswers {
  import opened Common
  import Registry
  import opened Enrollment
  import opened EnrollmentSafety

  // ----- Requests and their entries -----

  /** The token a request presents: its password if it has one, in its own name, else that of its
      query. */
  predicate Offers(r: Request, token: Name) {
    if r.basic.Some? then r.basic.value == (r.commonName, token) else r.queryToken == Some(token)
  }

  /** The credential at hand is one the request presented. */
  ghost predicate Backed(x: Session) {
    match x.pc
    case Looking(token) => token.Some? ==> Offers(x.request, token.value)
    case NewIdentity(token) => token.Some? ==> Offers(x.request, token.value)
    case Admitted(token) => token.Some? ==> Offers(x.request, token.value)
    case AdminWaits(token) => Offers(x.request, token)
    case AdminHolds(token) => Offers(x.request, token)
    case _ => true
  }

  ghost predicate HasEntry(s: Server, id: nat) {
    exists i :: 0 <= i < |s.history| && s.history[i].session == id
  }

  /** The request was inserted into the registry. */
  predicate Inserted(pc: Pc) {
    pc.AdminInserted? || pc.AdminCleared? || pc == Finished(Enrolled)
  }

  ghost predicate Answered(s: Server, id: nat)
    requires id in s.sessions
  {
    var x := s.sessions[id];
    && Backed(x) && id < s.nextSession
    && (HasEntry(s, id) <==> Inserted(x.pc))
    && (x.pc == Finished(AlreadyEnrolled) ==> x.request.commonName in s.registry.devices)
  }

  ghost predicate EntriesApart(s: Server) {
    && (forall i :: 0 <= i < |s.history| ==> s.history[i].session < s.nextSession)
    && (forall i, j :: 0 <= i < j < |s.history| ==> s.history[i].session != s.history[j].session)
  }

  ghost predicate AllAnswered(s: Server) {
    EntriesApart(s) && forall id :: id in s.sessions ==> Answered(s, id)
  }

  // ----- Every step keeps it -----

  /** The step moves request `id` and inserts nothing. */
  ghost predicate Moves(s: Server, t: Server, id: nat) {
    && id in s.sessions && t.sessions.Keys == s.sessions.Keys
    && t.sessions == s.sessions[id := s.sessions[id].(pc := t.sessions[id].pc)]
    && t.nextSession == s.nextSession && s.registry.devices.Keys <= t.registry.devices.Keys
    && (t.history == s.history || (|t.history| == |s.history| + 1 && s.history <= t.history
                                   && t.history[|s.history|].session == id
                                   && t.history[|s.history|].commonName == s.sessions[id].request.commonName))
  }

  lemma {:induction false} OthersAnswered(s: Server, t: Server, id: nat, k: nat)
    requires AllAnswered(s) && Moves(s, t, id) && k in s.sessions && k != id
    ensures k in t.sessions && Answered(t, k)
  {
    assert Answered(s, k);
    SameEntries(s, t, id, k);
  }

  lemma {:induction false} SameEntries(s: Server, t: Server, id: nat, k: nat)
    requires Moves(s, t, id)
    ensures HasEntry(t, k) <==> HasEntry(s, k) || (t.history != s.history && k == id)
  {
    if i :| 0 <= i < |s.history| && s.history[i].session == k {
      assert t.history[i] == s.history[i];
    }
    if i :| 0 <= i < |t.history| && t.history[i].session == k {
      assert i < |s.history| ==> t.history[i] == s.history[i];
    }
    if t.history != s.history {
      assert t.history[|s.history|].session == id;
    }
  }

  /** The moved request keeps its backing, is inserted exactly when an entry is made, and is told
      that its name is enrolled only if it is. */
  ghost predicate StepSound(s: Server, t: Server, id: nat) {
    && Moves(s, t, id)
    && (Backed(s.sessions[id]) ==> Backed(t.sessions[id]))
    && (if t.history == s.history then Inserted(t.sessions[id].pc) == Inserted(s.sessions[id].pc)
        else !Inserted(s.sessions[id].pc) && Inserted(t.sessions[id].pc))
    && (t.sessions[id].pc == Finished(AlreadyEnrolled) ==> t.sessions[id].request.commonName in t.registry.devices)
  }

  lemma {:induction false} MoveAnswered(s: Server, t: Server, id: nat)
    requires AllAnswered(s) && StepSound(s, t, id)
    ensures AllAnswered(t)
  {
    assert Answered(s, id);
    SameEntries(s, t, id, id);
    forall k | k in t.sessions
      ensures Answered(t, k)
    {
      if k != id {
        OthersAnswered(s, t, id, k);
      }
    }
    EntriesStayApart(s, t, id);
  }

  lemma {:induction false} EntriesStayApart(s: Server, t: Server, id: nat)
    requires EntriesApart(s) && Moves(s, t, id) && id < s.nextSession && (t.history != s.history ==> !HasEntry(s, id))
    ensures EntriesApart(t)
  {
    if t.history != s.history {
      forall i | 0 <= i < |s.history|
        ensures t.history[i] == s.history[i] && t.history[i].session != id
      {
      }
    }
  }

  lemma {:induction false} GoesSound(s: Server, id: nat, pc: Pc)
    requires id in s.sessions && !Inserted(s.sessions[id].pc) && !Inserted(pc)
    requires Backed(s.sessions[id]) ==> Backed(s.sessions[id].(pc := pc))
    requires pc == Finished(AlreadyEnrolled) ==> s.sessions[id].request.commonName in s.registry.devices
    ensures StepSound(s, Goes(s, id, pc), id)
  {
  }

  lemma {:induction false} InsertsSound(s: Server, id: nat, how: How, pc: Pc)
    requires id in s.sessions && !Inserted(s.sessions[id].pc) && Inserted(pc)
    ensures StepSound(s, Goes(Inserts(s, id, how), id, pc), id)
  {
  }

  lemma {:induction false} ArrivedSound(c: Config, s: Server, id: nat, t: Server)
    requires Advances(c, s, id, t) && s.sessions[id].pc.Arrived?
    ensures StepSound(s, t, id)
  {
    GoesSound(s, id, ReadCredentials(c, s, s.sessions[id].request));
  }

  lemma {:induction false} PasswordSound(c: Config, s: Server, id: nat, t: Server)
    requires Advances(c, s, id, t)
    requires s.sessions[id].pc.Login? || s.sessions[id].pc.Verified? || s.sessions[id].pc.Cleared?
    ensures StepSound(s, t, id)
  {
    if t.history == s.history {
      GoesSound(s, id, t.sessions[id].pc);
    } else {
      InsertsSound(s, id, ByPassword(s.sessions[id].pc.proof), Finished(Enrolled));
    }
  }

  lemma {:induction false} LookingSound(c: Config, s: Server, id: nat, t: Server)
    requires Advances(c, s, id, t) && (s.sessions[id].pc.Looking? || s.sessions[id].pc.NewIdentity?)
    ensures StepSound(s, t, id)
  {
    GoesSound(s, id, t.sessions[id].pc);
  }

  lemma {:induction false} AdmittedSound(c: Config, s: Server, id: nat, t: Server)
    requires Advances(c, s, id, t) && s.sessions[id].pc.Admitted?
    ensures StepSound(s, t, id)
  {
    var spent := s.sessions[id].pc.spent;
    if t.history == s.history {
      GoesSound(s, id, t.sessions[id].pc);
    } else {
      InsertsSound(s, id, if spent.Some? then ByToken(spent.value) else Freely, Finished(Enrolled));
    }
  }

  lemma {:induction false} AdminWaitsSound(c: Config, s: Server, id: nat, t: Server)
    requires Advances(c, s, id, t) && s.sessions[id].pc.AdminWaits?
    ensures StepSound(s, t, id)
  {
    GoesSound(s, id, t.sessions[id].pc);
  }

  lemma {:induction false} ReleaseSound(s: Server, id: nat, outcome: Outcome)
    requires id in s.sessions && s.sessions[id].pc.AdminHolds? && outcome != Enrolled
    requires outcome == AlreadyEnrolled ==> s.sessions[id].request.commonName in s.registry.devices
    ensures StepSound(s, Goes(Unlocks(s), id, Finished(outcome)), id)
  {
  }

  lemma {:induction false} AdminHoldsSound(c: Config, s: Server, id: nat, t: Server)
    requires Advances(c, s, id, t) && s.sessions[id].pc.AdminHolds?
    ensures StepSound(s, t, id)
  {
    var presented := s.sessions[id].pc.presented;
    assert StepAdminHolds(s, id, presented, t);
    if t == Goes(Inserts(s, id, ByBootstrap(presented)), id, AdminInserted) {
      InsertsSound(s, id, ByBootstrap(presented), AdminInserted);
    } else {
      ReleaseSound(s, id, t.sessions[id].pc.outcome);
    }
  }

  lemma {:induction false} AdminDoneSound(c: Config, s: Server, id: nat, t: Server)
    requires Advances(c, s, id, t) && (s.sessions[id].pc.AdminInserted? || s.sessions[id].pc.AdminCleared?)
    ensures StepSound(s, t, id)
  {
  }

  lemma {:induction false} AdvanceSound(c: Config, s: Server, id: nat, t: Server)
    requires Advances(c, s, id, t)
    ensures StepSound(s, t, id)
  {
    match s.sessions[id].pc
    case Arrived => ArrivedSound(c, s, id, t);
    case Login(_, _) => PasswordSound(c, s, id, t);
    case Verified(_, _) => PasswordSound(c, s, id, t);
    case Cleared(_, _) => PasswordSound(c, s, id, t);
    case Looking(_) => LookingSound(c, s, id, t);
    case NewIdentity(_) => LookingSound(c, s, id, t);
    case Admitted(_) => AdmittedSound(c, s, id, t);
    case AdminWaits(_) => AdminWaitsSound(c, s, id, t);
    case AdminHolds(_) => AdminHoldsSound(c, s, id, t);
    case AdminInserted => AdminDoneSound(c, s, id, t);
    case AdminCleared => AdminDoneSound(c, s, id, t);
  }

  /** Nothing about requests changes, or they are all gone. */
  lemma {:induction false} OtherAnswered(c: Config, s: Server, t: Server)
    requires AllAnswered(s) && t.history == s.history && t.nextSession == s.nextSession
    requires t.sessions == s.sessions || t.sessions == map[]
    requires s.registry.devices.Keys <= t.registry.devices.Keys
    ensures AllAnswered(t)
  {
    forall k | k in t.sessions
      ensures Answered(t, k)
    {
      assert Answered(s, k);
      assert HasEntry(t, k) <==> HasEntry(s, k);
    }
  }

  lemma {:induction false} ArriveAnswered(s: Server, r: Request, t: Server)
    requires AllAnswered(s) && Arrives(s, r, t)
    ensures AllAnswered(t)
  {
    forall k | k in t.sessions
      ensures Answered(t, k)
    {
      assert HasEntry(t, k) <==> HasEntry(s, k);
      if k in s.sessions {
        assert Answered(s, k);
      }
    }
  }

  lemma {:induction false} NextAnswered(c: Config, s: Server, t: Server)
    requires AllAnswered(s) && Next(c, s, t)
    ensures AllAnswered(t)
  {
    if id :| Advances(c, s, id, t) {
      AdvanceSound(c, s, id, t);
      MoveAnswered(s, t, id);
    } else if r :| Arrives(s, r, t) {
      ArriveAnswered(s, r, t);
    } else {
      OtherAnswered(c, s, t);
    }
  }

  /** In every state of every run, a request has an entry in the history exactly if it was inserted
      and told so or is about to be; no request has two. A request that was told that its name is
      enrolled already was told the truth. */
  lemma {:induction false} AnswersAreTrue(c: Config, run: seq<Server>, n: nat)
    requires IsRun(c, run) && n < |run|
    ensures AllAnswered(run[n])
  {
    if n > 0 {
      AnswersAreTrue(c, run, n - 1);
      assert StepOf(c, run, n);
      NextAnswered(c, run[n - 1], run[n]);
    }
  }

  // ----- What an entry was based on -----

  /** What one step's new entry says of the state before it. */
  ghost predicate EntryBacked(c: Config, s: Server, t: Server, e: Enrollment) {
    && e.session in s.sessions
    && var r := s.sessions[e.session].request;
       && e.commonName == r.commonName && e.cert == r.cert
       && e.commonName in t.registry.devices && t.registry.devices[e.commonName].cert == e.cert
       && t.registry.certificates == s.registry.certificates
            + [Registry.CertRecord(s.registry.nextCertId + 1, r.commonName, r.cert, r.clientUid, r.now)]
       && (!e.how.ByPassword? ==> e.commonName !in s.registry.devices)
       && match e.how
          case ByPassword(proof) => ProvedBy(s, proof, e.session, e.commonName) && !IsAdmin(c, e.commonName)
          case ByBootstrap(token) =>
            IsAdmin(c, e.commonName) && s.bootstrap == Some(token) && s.file == Holds(token) && Offers(r, token)
          case ByToken(token) => SpentBy(s, token, e.commonName) && Offers(r, token) && !IsAdmin(c, e.commonName)
          case Freely => !c.lockedDown && !IsAdmin(c, e.commonName)
  }

  lemma {:induction false} PasswordEntry(c: Config, s: Server, id: nat, t: Server)
    requires Inv(c, s) && Advances(c, s, id, t) && s.sessions[id].pc.Cleared? && t.history != s.history
    ensures |t.history| == |s.history| + 1 && EntryBacked(c, s, t, t.history[|s.history|])
  {
    assert SessionOk(c, s, id, s.sessions[id]);
  }

  lemma {:induction false} NewEntry(c: Config, s: Server, id: nat, t: Server)
    requires Inv(c, s) && id in s.sessions && Backed(s.sessions[id]) && Advances(c, s, id, t)
    requires s.sessions[id].pc.Admitted? && t.history != s.history
    ensures |t.history| == |s.history| + 1 && EntryBacked(c, s, t, t.history[|s.history|])
  {
    assert SessionOk(c, s, id, s.sessions[id]);
  }

  lemma {:induction false} AdminEntry(c: Config, s: Server, id: nat, t: Server)
    requires Inv(c, s) && id in s.sessions && Backed(s.sessions[id]) && Advances(c, s, id, t)
    requires s.sessions[id].pc.AdminHolds? && t.history != s.history
    ensures |t.history| == |s.history| + 1 && EntryBacked(c, s, t, t.history[|s.history|])
  {
    assert SessionOk(c, s, id, s.sessions[id]);
    RunsWithSessions(c, s, id);
  }

  lemma {:induction false} RunsWithSessions(c: Config, s: Server, id: nat)
    requires Inv(c, s) && id in s.sessions
    ensures s.running
  {
  }

  /** A step of a run. */
  ghost predicate Happens(c: Config, s: Server, t: Server) {
    Inv(c, s) && AllAnswered(s) && Next(c, s, t)
  }

  lemma {:induction false} StepHappens(c: Config, run: seq<Server>, n: nat, s: Server, t: Server)
    requires IsRun(c, run) && 0 < n < |run| && s == run[n - 1] && t == run[n]
    ensures Happens(c, s, t)
  {
    RunInv(c, run, n - 1);
    AnswersAreTrue(c, run, n - 1);
    assert StepOf(c, run, n);
  }

  /** If the step made an entry, it was backed. */
  ghost predicate EntryIfAny(c: Config, s: Server, t: Server) {
    t.history != s.history ==>
      |t.history| == |s.history| + 1 && EntryBacked(c, s, t, t.history[|s.history|])
  }

  lemma {:induction false} EntryHappens(c: Config, s: Server, t: Server)
    requires Happens(c, s, t)
    ensures EntryIfAny(c, s, t)
  {
    if t.history != s.history {
      EntryStep(c, s, t);
    }
  }

  lemma {:induction false} EntryStep(c: Config, s: Server, t: Server)
    requires Inv(c, s) && AllAnswered(s) && Next(c, s, t) && t.history != s.history
    ensures |t.history| == |s.history| + 1 && EntryBacked(c, s, t, t.history[|s.history|])
  {
    if id :| Advances(c, s, id, t) {
      assert Answered(s, id);
      var pc := s.sessions[id].pc;
      if pc.Cleared? {
        PasswordEntry(c, s, id, t);
      } else if pc.Admitted? {
        NewEntry(c, s, id, t);
      } else if pc.AdminHolds? {
        AdminEntry(c, s, id, t);
      } else {
        OtherStep(c, s, id, t);
      }
    } else {
      OtherExtends(c, s, t);
    }
  }

  /** Over every run: a new entry is that of a request under way and of its certificate; the
      admin's carries the very token the server and its file held until then, and which the
      request presented; any other token was presented by its request too. */
  lemma {:induction false} EntriesAreBacked(c: Config, run: seq<Server>, n: nat)
    requires IsRun(c, run) && 0 < n < |run|
    ensures EntryIfAny(c, run[n - 1], run[n])
  {
    StepHappens(c, run, n, run[n - 1], run[n]);
    EntryHappens(c, run[n - 1], run[n]);
  }

  // ----- A blocked name -----

  /** Nowhere from which the request could still be enrolled without being checked again. */
  predicate Unchecked(pc: Pc) {
    || pc.Arrived? || pc.Login? || pc.Verified? || pc.Looking? || pc.AdminWaits? || pc.AdminHolds?
    || (pc.Finished? && pc.outcome != Enrolled)
  }

  /** The request with number `id`, if it is for `cn`, is not enrolled and not admitted. */
  ghost predicate Stuck(s: Server, id: nat, cn: Name) {
    && (id in s.sessions && s.sessions[id].request.commonName == cn ==> Unchecked(s.sessions[id].pc))
    && forall i :: 0 <= i < |s.history| && s.history[i].session == id ==> s.history[i].commonName != cn
  }

  ghost predicate StaysUnchecked(s: Server, t: Server, id: nat) {
    t.history == s.history && id in t.sessions && Unchecked(t.sessions[id].pc)
  }

  lemma {:induction false} BlockedLogin(c: Config, s: Server, id: nat, t: Server)
    requires Advances(c, s, id, t) && Blocked(s, s.sessions[id].request.commonName)
    requires s.sessions[id].pc.Arrived? || s.sessions[id].pc.Login? || s.sessions[id].pc.Verified?
    ensures StaysUnchecked(s, t, id)
  {
  }

  lemma {:induction false} BlockedToken(c: Config, s: Server, id: nat, t: Server)
    requires Advances(c, s, id, t) && Blocked(s, s.sessions[id].request.commonName)
    requires s.sessions[id].pc.Looking? || s.sessions[id].pc.AdminWaits?
    ensures StaysUnchecked(s, t, id)
  {
  }

  lemma {:induction false} BlockedAdmin(c: Config, s: Server, id: nat, t: Server)
    requires Advances(c, s, id, t) && Blocked(s, s.sessions[id].request.commonName) && s.sessions[id].pc.AdminHolds?
    ensures StaysUnchecked(s, t, id)
  {
  }

  lemma {:induction false} BlockedStaysStuck(c: Config, s: Server, id: nat, cn: Name, t: Server)
    requires Stuck(s, id, cn) && Blocked(s, cn) && Advances(c, s, id, t)
    ensures Stuck(t, id, cn)
  {
    AdvanceSound(c, s, id, t);
    if s.sessions[id].request.commonName == cn {
      var pc := s.sessions[id].pc;
      if pc.AdminHolds? {
        BlockedAdmin(c, s, id, t);
      } else if pc.Looking? || pc.AdminWaits? {
        BlockedToken(c, s, id, t);
      } else {
        BlockedLogin(c, s, id, t);
      }
    }
  }

  lemma {:induction false} OthersStaySame(s: Server, id: nat, cn: Name, k: nat, t: Server)
    requires Stuck(s, id, cn) && Moves(s, t, k) && k != id
    ensures Stuck(t, id, cn)
  {
    forall i | 0 <= i < |t.history| && t.history[i].session == id
      ensures t.history[i].commonName != cn
    {
      assert i < |s.history| ==> t.history[i] == s.history[i];
    }
  }

  lemma {:induction false} StuckStep(c: Config, s: Server, id: nat, cn: Name, t: Server)
    requires Stuck(s, id, cn) && Blocked(s, cn) && Next(c, s, t)
    ensures Stuck(t, id, cn)
  {
    if k :| Advances(c, s, k, t) {
      if k == id {
        BlockedStaysStuck(c, s, id, cn, t);
      } else {
        AdvanceSound(c, s, k, t);
        OthersStaySame(s, id, cn, k, t);
      }
    } else if r :| Arrives(s, r, t) {
    } else {
      OtherExtends(c, s, t);
    }
  }

  lemma {:induction false} StuckHappens(c: Config, s: Server, id: nat, cn: Name, t: Server)
    requires Stuck(s, id, cn) && Blocked(s, cn) && Happens(c, s, t)
    ensures Stuck(t, id, cn)
  {
    StuckStep(c, s, id, cn, t);
  }

  lemma {:induction false} NotYetThere(s: Server, id: nat, cn: Name)
    requires AllAnswered(s) && s.nextSession <= id
    ensures Stuck(s, id, cn)
  {
    assert id in s.sessions ==> Answered(s, id);
  }

  ghost predicate BlockedFrom(run: seq<Server>, m: nat, n: nat, cn: Name) {
    forall k :: m <= k <= n && k < |run| ==> Blocked(run[k], cn)
  }

  lemma {:induction false} StuckAtStart(c: Config, run: seq<Server>, n: nat, id: nat, cn: Name)
    requires IsRun(c, run) && n < |run| && run[n].nextSession <= id
    ensures Stuck(run[n], id, cn)
  {
    AnswersAreTrue(c, run, n);
    NotYetThere(run[n], id, cn);
  }

  lemma {:induction false} StuckNext(c: Config, run: seq<Server>, n: nat, s: Server, t: Server, id: nat, cn: Name)
    requires IsRun(c, run) && 0 < n < |run| && s == run[n - 1] && t == run[n] && Stuck(s, id, cn) && Blocked(s, cn)
    ensures Stuck(t, id, cn)
  {
    StepHappens(c, run, n, s, t);
    StuckHappens(c, s, id, cn, t);
  }

  /** A request that arrives while its name is blocked, and stays blocked, is not enrolled. */
  lemma {:induction false} BlockedGetsNothing(c: Config, run: seq<Server>, m: nat, n: nat, cn: Name, id: nat)
    requires IsRun(c, run) && m <= n < |run| && run[m].nextSession <= id && BlockedFrom(run, m, n, cn)
    ensures Stuck(run[n], id, cn)
    decreases n
  {
    if n == m {
      StuckAtStart(c, run, n, id, cn);
    } else {
      BlockedGetsNothing(c, run, m, n - 1, cn, id);
      StuckNext(c, run, n, run[n - 1], run[n], id, cn);
    }
  }
}
