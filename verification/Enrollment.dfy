/**
 Enrollment as a concurrent protocol. Each request of `signClient/v2` goes through its own
 sequence of atomic steps (reading the account list, verifying a password, looking an
 identity up, consuming a token, inserting into the registry, holding the bootstrap lock);
 steps of different requests interleave freely, log appends can fail, and the server can
 crash between any two steps and start again from its files.
 */
module Enrollment {
  import opened Common
  import Registry
  import Tokens

  /** The admin's name, if one is configured, and whether enrolling needs a token. */
  datatype Config = Config(admin: Option<Name>, lockedDown: bool)

  /** A signed request: the name and certificate of its CSR, and what it presents. */
  datatype Request = Request(commonName: Name, cert: Name, clientUid: Option<Name>, now: int,
                             queryToken: Option<Name>, basic: Option<(Name, Name)>)

  datatype Outcome = Enrolled | Refused | AlreadyEnrolled | Failed

  /** Where a request stands. */
  datatype Pc =
    | Arrived
    | Login(username: Name, password: Name)
    | Verified(username: Name, proof: nat)
    | Cleared(username: Name, proof: nat)
    | Looking(token: Option<Name>)
    | NewIdentity(token: Option<Name>)
    | Admitted(spent: Option<Name>)
    | AdminWaits(presented: Name)
    | AdminHolds(presented: Name)
    | AdminInserted
    | AdminCleared
    | Finished(outcome: Outcome)

  datatype Session = Session(request: Request, pc: Pc)

  /** The bootstrap token file. */
  datatype TokenFile = Missing | Malformed | Holds(token: Name)

  /** A password check that succeeded. */
  datatype Proof = Proof(session: nat, username: Name, password: Name)

  datatype How = ByPassword(proof: nat) | ByBootstrap(token: Name) | ByToken(token: Name) | Freely

  /** An insertion into the registry, and what it was based on. */
  datatype Enrollment = Enrollment(session: nat, commonName: Name, cert: Name, how: How)

  /** `registry`, `tokens`, `accounts` and `file` are durable; `bootstrap`, `lock` and
      `sessions` live in memory. `proofs` and `history` record what happened. */
  datatype Server = Server(running: bool, accounts: map<Name, Name>,
                           registry: Registry.State, tokens: Tokens.State,
                           bootstrap: Option<Name>, file: TokenFile, lock: Option<nat>,
                           sessions: map<nat, Session>, nextSession: nat,
                           proofs: seq<Proof>, history: seq<Enrollment>)

  // ----- The steps of a request -----

  ghost predicate IsAdmin(c: Config, commonName: Name) {
    c.admin == Some(commonName)
  }

  ghost function Goes(s: Server, id: nat, pc: Pc): Server
    requires id in s.sessions
  {
    s.(sessions := s.sessions[id := s.sessions[id].(pc := pc)])
  }

  ghost function Unlocks(s: Server): Server {
    s.(lock := None)
  }

  /** The registry gets the request's certificate. */
  ghost function Inserts(s: Server, id: nat, how: How): Server
    requires id in s.sessions
  {
    var r := s.sessions[id].request;
    s.(registry := Registry.Apply(s.registry, Registry.Enrolled(r.commonName, r.cert, r.now, r.clientUid)),
       history := s.history + [Enrollment(id, r.commonName, r.cert, how)])
  }

  ghost function Consumes(s: Server, id: nat, token: Name): Server
    requires id in s.sessions
  {
    var r := s.sessions[id].request;
    s.(tokens := Tokens.Apply(s.tokens, Tokens.Consumed(token, r.commonName, r.now)))
  }

  ghost predicate Blocked(s: Server, commonName: Name) {
    commonName in s.registry.devices && s.registry.devices[commonName].revoked
  }

  /** Without a password account: the admin's name takes the bootstrap path, any other may
      only create an identity. */
  ghost function Route(c: Config, r: Request, presented: Option<Name>): Pc {
    if IsAdmin(c, r.commonName) then
      if presented.None? then Finished(Refused) else AdminWaits(presented.value)
    else Looking(presented)
  }

  ghost function ReadCredentials(c: Config, s: Server, r: Request): Pc {
    if r.basic.Some? then
      var (username, secret) := r.basic.value;
      if username in s.accounts then Login(username, secret)
      else if r.commonName != username then Finished(Refused)
      else Route(c, r, Some(secret))
    else Route(c, r, r.queryToken)
  }

  /** Refusing is always possible where the limiter or a missing group can refuse. */
  ghost predicate MayRefuse(s: Server, id: nat, t: Server)
    requires id in s.sessions
  {
    t == Goes(s, id, Finished(Refused))
  }

  ghost predicate StepLogin(s: Server, id: nat, username: Name, password: Name, t: Server)
    requires id in s.sessions
  {
    if username in s.accounts && s.accounts[username] == password
    then t == Goes(s, id, Verified(username, |s.proofs|)).(proofs := s.proofs + [Proof(id, username, password)])
    else t == Goes(s, id, Finished(Refused))
  }

  ghost predicate StepVerified(c: Config, s: Server, id: nat, username: Name, proof: nat, t: Server)
    requires id in s.sessions
  {
    var cn := s.sessions[id].request.commonName;
    if cn != username || IsAdmin(c, cn) || Blocked(s, cn)
    then t == Goes(s, id, Finished(Refused))
    else t == Goes(s, id, Cleared(username, proof))
  }

  ghost predicate StepCleared(s: Server, id: nat, proof: nat, t: Server)
    requires id in s.sessions
  {
    || t == Goes(Inserts(s, id, ByPassword(proof)), id, Finished(Enrolled))
    || t == Goes(s, id, Finished(Failed))
  }

  ghost predicate StepLooking(s: Server, id: nat, token: Option<Name>, t: Server)
    requires id in s.sessions
  {
    t == Goes(s, id, if s.sessions[id].request.commonName in s.registry.devices
                     then Finished(AlreadyEnrolled) else NewIdentity(token))
  }

  ghost predicate StepNewIdentity(c: Config, s: Server, id: nat, token: Option<Name>, t: Server)
    requires id in s.sessions
  {
    var r := s.sessions[id].request;
    if !c.lockedDown then t == Goes(s, id, Admitted(None))
    else if token.None? || Tokens.Check(s.tokens, token.value, r.commonName, r.now).Some?
    then t == Goes(s, id, Finished(Refused))
    else t == Goes(Consumes(s, id, token.value), id, Admitted(token))
  }

  ghost predicate StepAdmitted(s: Server, id: nat, spent: Option<Name>, t: Server)
    requires id in s.sessions
  {
    if s.sessions[id].request.commonName in s.registry.devices
    then t == Goes(s, id, Finished(AlreadyEnrolled))
    else || t == Goes(Inserts(s, id, if spent.Some? then ByToken(spent.value) else Freely), id, Finished(Enrolled))
         || t == Goes(s, id, Finished(Failed))
  }

  /** Under the bootstrap lock: compare, insert, and only then give the token up. */
  ghost predicate StepAdminHolds(s: Server, id: nat, presented: Name, t: Server)
    requires id in s.sessions
  {
    if s.bootstrap != Some(presented) then t == Goes(Unlocks(s), id, Finished(Refused))
    else if s.sessions[id].request.commonName in s.registry.devices
    then t == Goes(Unlocks(s), id, Finished(AlreadyEnrolled))
    else || t == Goes(Inserts(s, id, ByBootstrap(presented)), id, AdminInserted)
         || t == Goes(Unlocks(s), id, Finished(Failed))
  }

  /** Deleting the used token's file can fail; the enrollment stands. */
  ghost predicate StepAdminCleared(s: Server, id: nat, t: Server)
    requires id in s.sessions
  {
    || t == Goes(Unlocks(s), id, Finished(Enrolled)).(file := Missing)
    || t == Goes(Unlocks(s), id, Finished(Enrolled))
  }

  ghost predicate Advances(c: Config, s: Server, id: nat, t: Server) {
    && id in s.sessions
    && match s.sessions[id].pc
       case Arrived => t == Goes(s, id, ReadCredentials(c, s, s.sessions[id].request))
       case Login(username, password) => MayRefuse(s, id, t) || StepLogin(s, id, username, password, t)
       case Verified(username, proof) => MayRefuse(s, id, t) || StepVerified(c, s, id, username, proof, t)
       case Cleared(_, proof) => StepCleared(s, id, proof, t)
       case Looking(token) => StepLooking(s, id, token, t)
       case NewIdentity(token) => MayRefuse(s, id, t) || StepNewIdentity(c, s, id, token, t)
       case Admitted(spent) => StepAdmitted(s, id, spent, t)
       case AdminWaits(token) =>
         MayRefuse(s, id, t) || (s.lock.None? && t == Goes(s, id, AdminHolds(token)).(lock := Some(id)))
       case AdminHolds(token) => StepAdminHolds(s, id, token, t)
       case AdminInserted => t == Goes(s, id, AdminCleared).(bootstrap := None)
       case AdminCleared => StepAdminCleared(s, id, t)
       case Finished(_) => false
  }

  // ----- Everything else that can happen -----

  ghost predicate Arrives(s: Server, r: Request, t: Server) {
    && s.running
    && t == s.(sessions := s.sessions[s.nextSession := Session(r, Arrived)], nextSession := s.nextSession + 1)
  }

  /** Accounts, tokens, blocks and certificate rows are administered at any time; token
      values are random, hence fresh. */
  ghost predicate Administers(s: Server, t: Server) {
    || t == s.(accounts := t.accounts)
    || (exists e: Tokens.Event :: AdministersToken(s, e, t))
    || (exists e: Registry.Event :: AdministersRegistry(s, e, t))
  }

  ghost predicate AdministersToken(s: Server, e: Tokens.Event, t: Server) {
    !e.Consumed? && Tokens.Enabled(s.tokens, e) && t == s.(tokens := Tokens.Apply(s.tokens, e))
  }

  ghost predicate AdministersRegistry(s: Server, e: Registry.Event, t: Server) {
    !e.Enrolled? && t == s.(registry := Registry.Apply(s.registry, e))
  }

  ghost predicate Crashes(s: Server, t: Server) {
    t == s.(running := false, sessions := map[], lock := None, bootstrap := None)
  }

  /** Startup reads or creates the bootstrap token, unless the admin is enrolled; if a file
      operation fails, the server does not start. */
  ghost predicate Starts(c: Config, s: Server, random: Name, t: Server) {
    && !s.running
    && if c.admin.None? then t == s.(running := true)
       else if c.admin.value in s.registry.devices then t == s.(running := true, file := Missing) || t == s
       else if s.file.Holds? then t == s.(running := true, bootstrap := Some(s.file.token)) || t == s
       else || t == s.(running := true, bootstrap := Some(random), file := Holds(random))
            || t == s || t == s.(file := Malformed)
  }

  ghost predicate Next(c: Config, s: Server, t: Server) {
    || (exists id :: Advances(c, s, id, t))
    || (exists r :: Arrives(s, r, t))
    || Administers(s, t)
    || Crashes(s, t)
    || (exists random :: Starts(c, s, random, t))
  }

  /** A fresh installation; the token file may be left over from anything. */
  ghost predicate Init(s: Server) {
    && !s.running && s.registry == Registry.EMPTY && s.tokens == map[]
    && s.bootstrap.None? && s.lock.None? && s.sessions == map[] && s.proofs == [] && s.history == []
  }

  ghost predicate IsRun(c: Config, run: seq<Server>) {
    && run != [] && Init(run[0])
    && forall n :: 0 < n < |run| ==> StepOf(c, run, n)
  }

  ghost predicate StepOf(c: Config, run: seq<Server>, n: int)
    requires 0 < n < |run|
  {
    Next(c, run[n - 1], run[n])
  }
}
