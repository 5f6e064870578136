/**
 The steps of a request against a decision: left alone, a request can be carried to the end and
 enrolled exactly if its credentials entitle it to that in the state it arrives in.
 */
module EnrollmentDecisions {
  import opened Common
  import Tokens
  import opened Enrollment
  import opened EnrollmentAnswers

  // ----- The decision -----

  ghost predicate Usable(tokens: Tokens.State, token: Name, commonName: Name, now: int) {
    && token in tokens && !tokens[token].used && !tokens[token].revoked
    && (tokens[token].expires.Some? ==> now < tokens[token].expires.value)
    && (tokens[token].commonName.Some? ==> tokens[token].commonName.value == commonName)
  }

  /** A name that is not there yet may come in: the admin with the outstanding bootstrap token, any
      other with a token meant for it, or freely unless the server is locked down. */
  ghost predicate MayComeIn(c: Config, s: Server, r: Request) {
    && r.commonName !in s.registry.devices
    && if IsAdmin(c, r.commonName) then s.lock.None? && s.bootstrap.Some? && Offers(r, s.bootstrap.value)
       else c.lockedDown ==> exists token :: Offers(r, token) && Usable(s.tokens, token, r.commonName, r.now)
  }

  /** An account with its password enrolls its own name, unless that is the admin's or blocked. */
  ghost predicate MayLogIn(c: Config, s: Server, r: Request, username: Name, password: Name) {
    && username in s.accounts && s.accounts[username] == password
    && r.commonName == username && !IsAdmin(c, username)
    && !(username in s.registry.devices && s.registry.devices[username].revoked)
  }

  ghost predicate MayEnroll(c: Config, s: Server, r: Request) {
    match r.basic
    case Some((username, password)) =>
      if username in s.accounts then MayLogIn(c, s, r, username, password)
      else r.commonName == username && MayComeIn(c, s, r)
    case None => MayComeIn(c, s, r)
  }

  // ----- From where a request can still be enrolled -----

  ghost predicate TokenWill(c: Config, s: Server, r: Request, token: Option<Name>) {
    c.lockedDown ==> token.Some? && Usable(s.tokens, token.value, r.commonName, r.now)
  }

  ghost predicate CanEnd(c: Config, s: Server, id: nat) {
    && id in s.sessions
    && var r := s.sessions[id].request;
       match s.sessions[id].pc
       case Arrived => MayEnroll(c, s, r)
       case Login(username, password) => MayLogIn(c, s, r, username, password)
       case Verified(username, _) => r.commonName == username && !IsAdmin(c, username) && !Blocked(s, username)
       case Cleared(_, _) => true
       case Looking(token) => r.commonName !in s.registry.devices && TokenWill(c, s, r, token)
       case NewIdentity(token) => r.commonName !in s.registry.devices && TokenWill(c, s, r, token)
       case Admitted(_) => r.commonName !in s.registry.devices
       case AdminWaits(token) => s.lock.None? && s.bootstrap == Some(token) && r.commonName !in s.registry.devices
       case AdminHolds(token) => s.bootstrap == Some(token) && r.commonName !in s.registry.devices
       case AdminInserted => true
       case AdminCleared => true
       case Finished(outcome) => outcome == Enrolled
  }

  lemma {:induction false} CheckIff(tokens: Tokens.State, token: Name, commonName: Name, now: int)
    ensures Tokens.Check(tokens, token, commonName, now).None? <==> Usable(tokens, token, commonName, now)
  {
  }

  /** Reading the credentials is deciding what they can be used for. */
  lemma {:induction false} RouteIff(c: Config, s: Server, r: Request, presented: Option<Name>, id: nat, t: Server)
    requires id in s.sessions && s.sessions[id].request == r && t == Goes(s, id, Route(c, r, presented))
    requires forall token :: Offers(r, token) <==> presented == Some(token)
    ensures CanEnd(c, t, id) <==> MayComeIn(c, s, r)
  {
    if presented.Some? {
      assert Offers(r, presented.value);
    }
  }

  lemma {:induction false} ArrivedIff(c: Config, s: Server, id: nat, t: Server)
    requires Advances(c, s, id, t) && s.sessions[id].pc.Arrived?
    ensures CanEnd(c, t, id) <==> CanEnd(c, s, id)
  {
    var r := s.sessions[id].request;
    match r.basic
    case Some((username, secret)) =>
      if username !in s.accounts && r.commonName == username {
        RouteIff(c, s, r, Some(secret), id, t);
      }
    case None => RouteIff(c, s, r, r.queryToken, id, t);
  }

  // ----- A step cannot make up for what is missing -----

  lemma {:induction false} PasswordBack(c: Config, s: Server, id: nat, t: Server)
    requires Advances(c, s, id, t) && (s.sessions[id].pc.Login? || s.sessions[id].pc.Verified?) && CanEnd(c, t, id)
    ensures CanEnd(c, s, id)
  {
  }

  lemma {:induction false} LookingBack(c: Config, s: Server, id: nat, t: Server)
    requires Advances(c, s, id, t) && s.sessions[id].pc.Looking? && CanEnd(c, t, id)
    ensures CanEnd(c, s, id)
  {
  }

  lemma {:induction false} NewIdentityBack(c: Config, s: Server, id: nat, t: Server)
    requires Advances(c, s, id, t) && s.sessions[id].pc.NewIdentity? && CanEnd(c, t, id)
    ensures CanEnd(c, s, id)
  {
    var r, token := s.sessions[id].request, s.sessions[id].pc.token;
    if token.Some? {
      CheckIff(s.tokens, token.value, r.commonName, r.now);
    }
  }

  lemma {:induction false} AdmittedBack(c: Config, s: Server, id: nat, t: Server)
    requires Advances(c, s, id, t) && s.sessions[id].pc.Admitted? && CanEnd(c, t, id)
    ensures CanEnd(c, s, id)
  {
  }

  lemma {:induction false} AdminWaitsBack(c: Config, s: Server, id: nat, t: Server)
    requires Advances(c, s, id, t) && s.sessions[id].pc.AdminWaits? && CanEnd(c, t, id)
    ensures CanEnd(c, s, id)
  {
  }

  lemma {:induction false} AdminHoldsBack(c: Config, s: Server, id: nat, t: Server)
    requires Advances(c, s, id, t) && s.sessions[id].pc.AdminHolds? && CanEnd(c, t, id)
    ensures CanEnd(c, s, id)
  {
    var presented := s.sessions[id].pc.presented;
    assert StepAdminHolds(s, id, presented, t);
  }

  lemma {:induction false} StepBack(c: Config, s: Server, id: nat, t: Server)
    requires Advances(c, s, id, t) && CanEnd(c, t, id)
    ensures CanEnd(c, s, id)
  {
    match s.sessions[id].pc
    case Arrived => ArrivedIff(c, s, id, t);
    case Login(_, _) => PasswordBack(c, s, id, t);
    case Verified(_, _) => PasswordBack(c, s, id, t);
    case Cleared(_, _) =>
    case Looking(_) => LookingBack(c, s, id, t);
    case NewIdentity(_) => NewIdentityBack(c, s, id, t);
    case Admitted(_) => AdmittedBack(c, s, id, t);
    case AdminWaits(_) => AdminWaitsBack(c, s, id, t);
    case AdminHolds(_) => AdminHoldsBack(c, s, id, t);
    case AdminInserted =>
    case AdminCleared =>
  }

  // ----- There is a step for what is there -----

  /** How many steps are left, at most. */
  function Left(pc: Pc): nat {
    match pc
    case Arrived => 5
    case Login(_, _) => 3
    case Verified(_, _) => 2
    case Cleared(_, _) => 1
    case Looking(_) => 3
    case NewIdentity(_) => 2
    case Admitted(_) => 1
    case AdminWaits(_) => 4
    case AdminHolds(_) => 3
    case AdminInserted => 2
    case AdminCleared => 1
    case Finished(_) => 0
  }

  ghost predicate Forward(c: Config, s: Server, id: nat, t: Server) {
    && Advances(c, s, id, t) && CanEnd(c, t, id) && id in s.sessions && id in t.sessions
    && Left(t.sessions[id].pc) < Left(s.sessions[id].pc)
  }

  lemma {:induction false} PasswordForward(c: Config, s: Server, id: nat) returns (t: Server)
    requires CanEnd(c, s, id) && (s.sessions[id].pc.Login? || s.sessions[id].pc.Verified? || s.sessions[id].pc.Cleared?)
    ensures Forward(c, s, id, t)
  {
    match s.sessions[id].pc
    case Login(username, password) =>
      t := Goes(s, id, Verified(username, |s.proofs|)).(proofs := s.proofs + [Proof(id, username, password)]);
    case Verified(username, proof) => t := Goes(s, id, Cleared(username, proof));
    case Cleared(_, proof) => t := Goes(Inserts(s, id, ByPassword(proof)), id, Finished(Enrolled));
  }

  lemma {:induction false} TokenForward(c: Config, s: Server, id: nat) returns (t: Server)
    requires CanEnd(c, s, id) && (s.sessions[id].pc.Looking? || s.sessions[id].pc.NewIdentity?)
    ensures Forward(c, s, id, t)
  {
    var r, token := s.sessions[id].request, s.sessions[id].pc.token;
    if s.sessions[id].pc.Looking? {
      t := Goes(s, id, NewIdentity(token));
    } else if c.lockedDown {
      CheckIff(s.tokens, token.value, r.commonName, r.now);
      t := Goes(Consumes(s, id, token.value), id, Admitted(token));
    } else {
      t := Goes(s, id, Admitted(None));
    }
  }

  lemma {:induction false} AdmittedForward(c: Config, s: Server, id: nat) returns (t: Server)
    requires CanEnd(c, s, id) && s.sessions[id].pc.Admitted?
    ensures Forward(c, s, id, t)
  {
    var spent := s.sessions[id].pc.spent;
    t := Goes(Inserts(s, id, if spent.Some? then ByToken(spent.value) else Freely), id, Finished(Enrolled));
  }

  lemma {:induction false} AdminForward(c: Config, s: Server, id: nat) returns (t: Server)
    requires CanEnd(c, s, id) && (s.sessions[id].pc.AdminWaits? || s.sessions[id].pc.AdminHolds?)
    ensures Forward(c, s, id, t)
  {
    var presented := s.sessions[id].pc.presented;
    if s.sessions[id].pc.AdminWaits? {
      t := Goes(s, id, AdminHolds(presented)).(lock := Some(id));
    } else {
      t := Goes(Inserts(s, id, ByBootstrap(presented)), id, AdminInserted);
    }
  }

  lemma {:induction false} AdminDoneForward(c: Config, s: Server, id: nat) returns (t: Server)
    requires CanEnd(c, s, id) && (s.sessions[id].pc.AdminInserted? || s.sessions[id].pc.AdminCleared?)
    ensures Forward(c, s, id, t)
  {
    if s.sessions[id].pc.AdminInserted? {
      t := Goes(s, id, AdminCleared).(bootstrap := None);
    } else {
      t := Goes(Unlocks(s), id, Finished(Enrolled)).(file := Missing);
    }
  }

  lemma {:induction false} StepForward(c: Config, s: Server, id: nat) returns (t: Server)
    requires CanEnd(c, s, id) && !s.sessions[id].pc.Finished?
    ensures Forward(c, s, id, t)
  {
    match s.sessions[id].pc
    case Arrived =>
      t := Goes(s, id, ReadCredentials(c, s, s.sessions[id].request));
      ArrivedIff(c, s, id, t);
    case Login(_, _) => t := PasswordForward(c, s, id);
    case Verified(_, _) => t := PasswordForward(c, s, id);
    case Cleared(_, _) => t := PasswordForward(c, s, id);
    case Looking(_) => t := TokenForward(c, s, id);
    case NewIdentity(_) => t := TokenForward(c, s, id);
    case Admitted(_) => t := AdmittedForward(c, s, id);
    case AdminWaits(_) => t := AdminForward(c, s, id);
    case AdminHolds(_) => t := AdminForward(c, s, id);
    case AdminInserted => t := AdminDoneForward(c, s, id);
    case AdminCleared => t := AdminDoneForward(c, s, id);
  }

  // ----- What a refusal says -----

  /** Places at which the limiter or a missing group can refuse anybody. */
  predicate MayBeRefused(pc: Pc) {
    pc.Login? || pc.Verified? || pc.NewIdentity? || pc.AdminWaits?
  }

  /** The answer fits what the request was entitled to: a failure is told to one that was entitled, a
      refusal, elsewhere than where anybody can be refused, and that the name is there, to one that
      was not. */
  ghost predicate SaysWhy(c: Config, s: Server, id: nat, t: Server) {
    && id in s.sessions && id in t.sessions
    && (t.sessions[id].pc == Finished(Failed) ==> CanEnd(c, s, id))
    && (t.sessions[id].pc == Finished(Refused) && !MayBeRefused(s.sessions[id].pc) ==> !CanEnd(c, s, id))
    && (t.sessions[id].pc == Finished(AlreadyEnrolled) ==> !CanEnd(c, s, id))
  }

  lemma {:induction false} ArrivedWhy(c: Config, s: Server, id: nat, t: Server)
    requires Advances(c, s, id, t) && s.sessions[id].pc.Arrived?
    ensures SaysWhy(c, s, id, t)
  {
    ArrivedIff(c, s, id, t);
  }

  lemma {:induction false} PasswordWhy(c: Config, s: Server, id: nat, t: Server)
    requires Advances(c, s, id, t)
    requires s.sessions[id].pc.Login? || s.sessions[id].pc.Verified? || s.sessions[id].pc.Cleared?
    ensures SaysWhy(c, s, id, t)
  {
  }

  lemma {:induction false} LookingWhy(c: Config, s: Server, id: nat, t: Server)
    requires Advances(c, s, id, t) && (s.sessions[id].pc.Looking? || s.sessions[id].pc.NewIdentity?)
    ensures SaysWhy(c, s, id, t)
  {
  }

  lemma {:induction false} AdmittedWhy(c: Config, s: Server, id: nat, t: Server)
    requires Advances(c, s, id, t) && s.sessions[id].pc.Admitted?
    ensures SaysWhy(c, s, id, t)
  {
  }

  lemma {:induction false} AdminWaitsWhy(c: Config, s: Server, id: nat, t: Server)
    requires Advances(c, s, id, t) && s.sessions[id].pc.AdminWaits?
    ensures SaysWhy(c, s, id, t)
  {
  }

  lemma {:induction false} AdminHoldsWhy(c: Config, s: Server, id: nat, t: Server)
    requires Advances(c, s, id, t) && s.sessions[id].pc.AdminHolds?
    ensures SaysWhy(c, s, id, t)
  {
    assert StepAdminHolds(s, id, s.sessions[id].pc.presented, t);
  }

  lemma {:induction false} AdminDoneWhy(c: Config, s: Server, id: nat, t: Server)
    requires Advances(c, s, id, t) && (s.sessions[id].pc.AdminInserted? || s.sessions[id].pc.AdminCleared?)
    ensures SaysWhy(c, s, id, t)
  {
  }

  lemma {:induction false} AnswersSayWhy(c: Config, s: Server, id: nat, t: Server)
    requires Advances(c, s, id, t)
    ensures SaysWhy(c, s, id, t)
  {
    match s.sessions[id].pc
    case Arrived => ArrivedWhy(c, s, id, t);
    case Login(_, _) => PasswordWhy(c, s, id, t);
    case Verified(_, _) => PasswordWhy(c, s, id, t);
    case Cleared(_, _) => PasswordWhy(c, s, id, t);
    case Looking(_) => LookingWhy(c, s, id, t);
    case NewIdentity(_) => LookingWhy(c, s, id, t);
    case Admitted(_) => AdmittedWhy(c, s, id, t);
    case AdminWaits(_) => AdminWaitsWhy(c, s, id, t);
    case AdminHolds(_) => AdminHoldsWhy(c, s, id, t);
    case AdminInserted => AdminDoneWhy(c, s, id, t);
    case AdminCleared => AdminDoneWhy(c, s, id, t);
  }

  // ----- Left alone -----

  ghost predicate StepsAlone(c: Config, id: nat, path: seq<Server>) {
    forall k :: 0 < k < |path| ==> AloneAt(c, id, path, k)
  }

  ghost predicate AloneAt(c: Config, id: nat, path: seq<Server>, k: int)
    requires 0 < k < |path|
  {
    Advances(c, path[k - 1], id, path[k])
  }

  /** Steps of this request alone lead from `s` to its enrollment. */
  ghost predicate LeadsToEnrolled(c: Config, s: Server, id: nat, path: seq<Server>) {
    && path != [] && path[0] == s && StepsAlone(c, id, path)
    && id in path[|path| - 1].sessions && path[|path| - 1].sessions[id].pc == Finished(Enrolled)
  }

  ghost predicate CanBeEnrolled(c: Config, s: Server, id: nat) {
    exists path :: LeadsToEnrolled(c, s, id, path)
  }

  lemma {:induction false} EndsForward(c: Config, s: Server, id: nat)
    requires CanEnd(c, s, id)
    ensures CanBeEnrolled(c, s, id)
    decreases Left(s.sessions[id].pc)
  {
    if s.sessions[id].pc.Finished? {
      assert LeadsToEnrolled(c, s, id, [s]);
    } else {
      var t := StepForward(c, s, id);
      EndsForward(c, t, id);
      var rest :| LeadsToEnrolled(c, t, id, rest);
      var path := [s] + rest;
      forall k | 0 < k < |path|
        ensures AloneAt(c, id, path, k)
      {
        if k > 1 {
          assert AloneAt(c, id, rest, k - 1);
        }
      }
      assert LeadsToEnrolled(c, s, id, path);
    }
  }

  lemma {:induction false} EndsBack(c: Config, s: Server, id: nat, path: seq<Server>)
    requires LeadsToEnrolled(c, s, id, path)
    ensures CanEnd(c, s, id)
    decreases |path|
  {
    if |path| > 1 {
      var rest := path[1..];
      forall k | 0 < k < |rest|
        ensures AloneAt(c, id, rest, k)
      {
        assert AloneAt(c, id, path, k + 1);
      }
      EndsBack(c, path[1], id, rest);
      assert AloneAt(c, id, path, 1);
      StepBack(c, s, id, path[1]);
    }
  }

  /** A request that arrives and is left alone can be enrolled exactly if the decision says so. */
  lemma {:induction false} EnrolledIffEntitled(c: Config, s: Server, r: Request, t: Server)
    requires Arrives(s, r, t)
    ensures CanBeEnrolled(c, t, s.nextSession) <==> MayEnroll(c, s, r)
  {
    var id := s.nextSession;
    assert CanEnd(c, t, id) <==> MayEnroll(c, s, r);
    if CanEnd(c, t, id) {
      EndsForward(c, t, id);
    }
    if path :| LeadsToEnrolled(c, t, id, path) {
      EndsBack(c, t, id, path);
    }
  }
}
