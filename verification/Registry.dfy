/**
 The device registry: enrolled identities, the certificates issued to them, blocks and
 revocations. What the reducer computes is read off the log declaratively, so that facts
 about the future (a revocation is for good, ids are never reused) hold for every log.
 */
module Registry {
  import opened Common
  import opened EventLogs

  datatype Device = Device(cert: Name, enrolledAt: int, revoked: bool)

  datatype CertRecord = CertRecord(id: int, commonName: Name, cert: Name, clientUid: Option<Name>, issuedAt: int)

  datatype Event =
    | Enrolled(commonName: Name, cert: Name, at: int, clientUid: Option<Name>)
    | Revoked(commonName: Name)
    | UidBound(commonName: Name, uid: Name)
    | CertRevoked(fingerprint: Name, at: int)
    | CertDeleted(id: int)
    | Unblocked(commonName: Name)

  datatype State = State(devices: map<Name, Device>, revokedCerts: map<Name, int>,
                         certificates: seq<CertRecord>, nextCertId: int)

  const EMPTY := State(map[], map[], [], 0)

  datatype Access = Allowed | Blocked | CertIsRevoked

  datatype Error = NotFound | AlreadyEnrolled | InvalidFingerprint | LogFailed

  // ----- The reducer -----

  function SetRevoked(s: State, commonName: Name, revoked: bool): State {
    if commonName in s.devices
    then s.(devices := s.devices[commonName := s.devices[commonName].(revoked := revoked)])
    else s
  }

  function WithoutId(rows: seq<CertRecord>, id: int): seq<CertRecord> {
    if rows == [] then []
    else
      var rest, last := WithoutId(rows[..|rows| - 1], id), rows[|rows| - 1];
      if last.id == id then rest else rest + [last]
  }

  /** Re-enrolling keeps the block: a new certificate is no way around it. */
  function Apply(s: State, e: Event): State {
    match e
    case Enrolled(commonName, cert, at, clientUid) =>
      var blocked := commonName in s.devices && s.devices[commonName].revoked;
      s.(nextCertId := s.nextCertId + 1,
         certificates := s.certificates + [CertRecord(s.nextCertId + 1, commonName, cert, clientUid, at)],
         devices := s.devices[commonName := Device(cert, at, blocked)])
    case Revoked(commonName) => SetRevoked(s, commonName, true)
    case UidBound(_, _) => s
    case CertRevoked(fingerprint, at) =>
      if fingerprint in s.revokedCerts then s else s.(revokedCerts := s.revokedCerts[fingerprint := at])
    case CertDeleted(id) => s.(certificates := WithoutId(s.certificates, id))
    case Unblocked(commonName) => SetRevoked(s, commonName, false)
  }

  ghost function StateAfter(events: seq<Event>): State {
    Fold(Apply, EMPTY, events)
  }

  function AccessOf(s: State, commonName: Name, fingerprint: Name): Access {
    if commonName in s.devices && s.devices[commonName].revoked then Blocked
    else if fingerprint in s.revokedCerts then CertIsRevoked
    else Allowed
  }

  function HasCert(s: State, id: int): bool {
    exists r :: r in s.certificates && r.id == id
  }

  // ----- Reading the log -----

  ghost predicate EnrollsAt(events: seq<Event>, commonName: Name, i: int) {
    0 <= i < |events| && events[i].Enrolled? && events[i].commonName == commonName
  }

  ghost predicate EverEnrolled(events: seq<Event>, commonName: Name) {
    exists i :: EnrollsAt(events, commonName, i)
  }

  /** Position `i` holds the identity's latest enrollment. */
  ghost predicate LatestEnrollment(events: seq<Event>, commonName: Name, i: int) {
    EnrollsAt(events, commonName, i) && forall j :: EnrollsAt(events, commonName, j) ==> j <= i
  }

  ghost predicate BlockAt(events: seq<Event>, commonName: Name, i: int) {
    0 <= i < |events| && events[i] == Revoked(commonName) && EverEnrolled(events[..i], commonName)
  }

  ghost predicate LiftAt(events: seq<Event>, commonName: Name, i: int) {
    0 <= i < |events| && events[i] == Unblocked(commonName)
  }

  /** An enrolled identity was blocked and no unblock came after. */
  ghost predicate BlockedBy(events: seq<Event>, commonName: Name) {
    exists i :: BlockAt(events, commonName, i) && forall j :: j > i ==> !LiftAt(events, commonName, j)
  }

  ghost predicate RevokesAt(events: seq<Event>, fingerprint: Name, i: int) {
    0 <= i < |events| && events[i].CertRevoked? && events[i].fingerprint == fingerprint
  }

  ghost predicate EverRevoked(events: seq<Event>, fingerprint: Name) {
    exists i :: RevokesAt(events, fingerprint, i)
  }

  /** How many enrollments the first `n` events hold. */
  ghost function Enrollments(events: seq<Event>, n: nat): nat
    requires n <= |events|
  {
    if n == 0 then 0 else Enrollments(events, n - 1) + if events[n - 1].Enrolled? then 1 else 0
  }

  /** The row the enrollment at `i` issues: its id is its number among all enrollments. */
  ghost function RowAt(events: seq<Event>, i: nat): CertRecord
    requires i < |events| && events[i].Enrolled?
  {
    var e := events[i];
    CertRecord(Enrollments(events, i) + 1, e.commonName, e.cert, e.clientUid, e.at)
  }

  /** The rows of the first `n` events that no later event deletes, oldest first. */
  ghost function Rows(events: seq<Event>, n: nat): seq<CertRecord>
    requires n <= |events|
  {
    if n == 0 then []
    else if Survives(events, n - 1)
    then Rows(events, n - 1) + [RowAt(events, n - 1)]
    else Rows(events, n - 1)
  }

  /** The enrollment at `i` issued a row that is still there. */
  ghost predicate Survives(events: seq<Event>, i: nat)
    requires i < |events|
  {
    events[i].Enrolled? && !DeletedAfter(events, i, Enrollments(events, i) + 1)
  }

  ghost predicate DeletedAfter(events: seq<Event>, i: int, id: int) {
    exists j :: 0 <= j < |events| && i < j && events[j] == CertDeleted(id)
  }

  /** The state is what the log says. */
  ghost predicate Reads(s: State, events: seq<Event>) {
    && DevicesRead(s, events) && RevokedRead(s, events)
    && s.nextCertId == Enrollments(events, |events|)
    && s.certificates == Rows(events, |events|)
  }

  ghost predicate DevicesRead(s: State, events: seq<Event>) {
    forall cn :: DeviceReads(s, events, cn)
  }

  ghost predicate DeviceReads(s: State, events: seq<Event>, cn: Name) {
    && (cn in s.devices <==> EverEnrolled(events, cn))
    && (cn in s.devices ==> s.devices[cn].revoked == BlockedBy(events, cn))
    && (forall i :: cn in s.devices && LatestEnrollment(events, cn, i) ==>
         s.devices[cn].cert == events[i].cert && s.devices[cn].enrolledAt == events[i].at)
  }

  ghost predicate RevokedRead(s: State, events: seq<Event>) {
    && (forall fp :: fp in s.revokedCerts <==> EverRevoked(events, fp))
    && (forall fp, i :: RevokesAt(events, fp, i) && (forall j :: RevokesAt(events, fp, j) ==> i <= j) ==>
         s.revokedCerts[fp] == events[i].at)
  }

  // ----- One more event -----

  lemma EnrollsAppend(events: seq<Event>, e: Event, cn: Name, i: int)
    ensures EnrollsAt(events + [e], cn, i) <==>
            EnrollsAt(events, cn, i) || (i == |events| && e.Enrolled? && e.commonName == cn)
  {
  }

  lemma EverEnrolledAppend(events: seq<Event>, e: Event, cn: Name)
    ensures EverEnrolled(events + [e], cn) <==> EverEnrolled(events, cn) || (e.Enrolled? && e.commonName == cn)
  {
    if i :| EnrollsAt(events, cn, i) { EnrollsAppend(events, e, cn, i); }
    if i :| EnrollsAt(events + [e], cn, i) { EnrollsAppend(events, e, cn, i); }
    EnrollsAppend(events, e, cn, |events|);
  }

  lemma LatestAppend(events: seq<Event>, e: Event, cn: Name, i: int)
    requires LatestEnrollment(events + [e], cn, i)
    ensures if e.Enrolled? && e.commonName == cn then i == |events| else LatestEnrollment(events, cn, i)
  {
    EnrollsAppend(events, e, cn, i);
    EnrollsAppend(events, e, cn, |events|);
    forall j | EnrollsAt(events, cn, j)
      ensures j <= i
    {
      EnrollsAppend(events, e, cn, j);
    }
  }

  lemma BlockAtAppend(events: seq<Event>, e: Event, cn: Name, i: int)
    ensures BlockAt(events + [e], cn, i) <==>
            BlockAt(events, cn, i) || (i == |events| && e == Revoked(cn) && EverEnrolled(events, cn))
    ensures LiftAt(events + [e], cn, i) <==> LiftAt(events, cn, i) || (i == |events| && e == Unblocked(cn))
  {
    if 0 <= i <= |events| { assert (events + [e])[..i] == events[..i]; }
    assert events[..|events|] == events;
  }

  lemma BlockImpliesEnrolled(events: seq<Event>, cn: Name)
    ensures BlockedBy(events, cn) ==> EverEnrolled(events, cn)
  {
    if i :| BlockAt(events, cn, i) && forall j :: j > i ==> !LiftAt(events, cn, j) {
      var k :| EnrollsAt(events[..i], cn, k);
      assert EnrollsAt(events, cn, k);
    }
  }

  lemma BlockedAppend(events: seq<Event>, e: Event, cn: Name)
    ensures BlockedBy(events + [e], cn) <==>
            (if e == Revoked(cn) then EverEnrolled(events, cn)
             else if e == Unblocked(cn) then false
             else BlockedBy(events, cn))
  {
    var more := events + [e];
    BlockImpliesEnrolled(events, cn);
    BlockAtAppend(events, e, cn, |events|);
    if i :| BlockAt(events, cn, i) && forall j :: j > i ==> !LiftAt(events, cn, j) {
      BlockAtAppend(events, e, cn, i);
      forall j | j > i
        ensures LiftAt(more, cn, j) <==> j == |events| && e == Unblocked(cn)
      {
        BlockAtAppend(events, e, cn, j);
      }
    }
    if i :| BlockAt(more, cn, i) && forall j :: j > i ==> !LiftAt(more, cn, j) {
      BlockAtAppend(events, e, cn, i);
      forall j | j > i
        ensures !LiftAt(events, cn, j)
      {
        BlockAtAppend(events, e, cn, j);
      }
      assert i < |events| ==> !LiftAt(more, cn, |events|);
    }
    if e == Revoked(cn) && EverEnrolled(events, cn) {
      forall j | j > |events|
        ensures !LiftAt(more, cn, j)
      {
      }
      assert BlockAt(more, cn, |events|);
    }
  }

  lemma DeviceStep(s: State, events: seq<Event>, e: Event, cn: Name)
    requires DeviceReads(s, events, cn)
    ensures DeviceReads(Apply(s, e), events + [e], cn)
  {
    var t, more := Apply(s, e), events + [e];
    EverEnrolledAppend(events, e, cn);
    BlockedAppend(events, e, cn);
    BlockImpliesEnrolled(events, cn);
    forall i | cn in t.devices && LatestEnrollment(more, cn, i)
      ensures t.devices[cn].cert == more[i].cert && t.devices[cn].enrolledAt == more[i].at
    {
      LatestAppend(events, e, cn, i);
    }
  }

  lemma RevokesAppend(events: seq<Event>, e: Event, fp: Name, i: int)
    ensures RevokesAt(events + [e], fp, i) <==>
            RevokesAt(events, fp, i) || (i == |events| && e.CertRevoked? && e.fingerprint == fp)
  {
  }

  lemma EverRevokedAppend(events: seq<Event>, e: Event, fp: Name)
    ensures EverRevoked(events + [e], fp) <==> EverRevoked(events, fp) || (e.CertRevoked? && e.fingerprint == fp)
  {
    if i :| RevokesAt(events, fp, i) { RevokesAppend(events, e, fp, i); }
    if i :| RevokesAt(events + [e], fp, i) { RevokesAppend(events, e, fp, i); }
    RevokesAppend(events, e, fp, |events|);
  }

  lemma RevokedStep(s: State, events: seq<Event>, e: Event)
    requires RevokedRead(s, events)
    ensures RevokedRead(Apply(s, e), events + [e])
  {
    var t, more := Apply(s, e), events + [e];
    forall fp
      ensures fp in t.revokedCerts <==> EverRevoked(more, fp)
    {
      EverRevokedAppend(events, e, fp);
    }
    forall fp, i | RevokesAt(more, fp, i) && forall j :: RevokesAt(more, fp, j) ==> i <= j
      ensures t.revokedCerts[fp] == more[i].at
    {
      RevokesAppend(events, e, fp, i);
      if k :| RevokesAt(events, fp, k) {
        RevokesAppend(events, e, fp, k);
        forall j | RevokesAt(events, fp, j)
          ensures i <= j
        {
          RevokesAppend(events, e, fp, j);
        }
      }
    }
  }

  lemma {:induction false} EnrollmentsAppend(events: seq<Event>, e: Event, n: nat)
    requires n <= |events|
    ensures Enrollments(events + [e], n) == Enrollments(events, n)
  {
    if n > 0 { EnrollmentsAppend(events, e, n - 1); }
  }

  lemma DeletedAppend(events: seq<Event>, e: Event, i: nat, id: int)
    requires i < |events|
    ensures DeletedAfter(events + [e], i, id) <==> DeletedAfter(events, i, id) || e == CertDeleted(id)
  {
    var more := events + [e];
    if j :| 0 <= j < |events| && i < j && events[j] == CertDeleted(id) { assert more[j] == events[j]; }
    assert more[|events|] == e;
  }

  lemma SurvivesAppend(events: seq<Event>, e: Event, i: nat)
    requires i < |events|
    ensures Survives(events + [e], i) <==> Survives(events, i) && e != CertDeleted(Enrollments(events, i) + 1)
    ensures events[i].Enrolled? ==> RowAt(events + [e], i) == RowAt(events, i)
  {
    EnrollmentsAppend(events, e, i);
    DeletedAppend(events, e, i, Enrollments(events, i) + 1);
  }

  lemma WithoutIdAppend(rows: seq<CertRecord>, r: CertRecord, id: int)
    ensures WithoutId(rows + [r], id) == if r.id == id then WithoutId(rows, id) else WithoutId(rows, id) + [r]
  {
    assert (rows + [r])[..|rows|] == rows;
  }

  lemma {:induction false} RowsAppend(events: seq<Event>, e: Event, n: nat)
    requires n <= |events|
    ensures Rows(events + [e], n) == if e.CertDeleted? then WithoutId(Rows(events, n), e.id) else Rows(events, n)
  {
    if n > 0 {
      RowsAppend(events, e, n - 1);
      SurvivesAppend(events, e, n - 1);
      if Survives(events, n - 1) && e.CertDeleted? {
        WithoutIdAppend(Rows(events, n - 1), RowAt(events, n - 1), e.id);
      }
    }
  }

  lemma CertificatesStep(s: State, events: seq<Event>, e: Event)
    requires s.nextCertId == Enrollments(events, |events|) && s.certificates == Rows(events, |events|)
    ensures Apply(s, e).nextCertId == Enrollments(events + [e], |events| + 1)
    ensures Apply(s, e).certificates == Rows(events + [e], |events| + 1)
  {
    var more := events + [e];
    EnrollmentsAppend(events, e, |events|);
    RowsAppend(events, e, |events|);
    assert !DeletedAfter(more, |events|, Enrollments(events, |events|) + 1);
  }

  lemma ReadsStep(s: State, events: seq<Event>, e: Event)
    requires Reads(s, events)
    ensures Reads(Apply(s, e), events + [e])
  {
    forall cn
      ensures DeviceReads(Apply(s, e), events + [e], cn)
    {
      DeviceStep(s, events, e, cn);
    }
    RevokedStep(s, events, e);
    CertificatesStep(s, events, e);
  }

  /** For every log: an identity exists iff it was enrolled, holds its latest certificate, is
      blocked iff its last block was never lifted; a fingerprint is revoked iff the log ever
      revoked it; the certificate rows are the enrollments not deleted since, each with its
      number among all enrollments as id. */
  lemma {:induction false} StateReadsLog(events: seq<Event>)
    ensures Reads(StateAfter(events), events)
  {
    if events != [] {
      var front := events[..|events| - 1];
      StateReadsLog(front);
      ReadsStep(StateAfter(front), front, events[|events| - 1]);
      assert events == front + [events[|events| - 1]];
    }
  }

  // ----- What can never come back -----

  lemma AccessReadsLog(events: seq<Event>, commonName: Name, fingerprint: Name)
    ensures AccessOf(StateAfter(events), commonName, fingerprint) == Allowed <==>
            !BlockedBy(events, commonName) && !EverRevoked(events, fingerprint)
  {
    StateReadsLog(events);
    assert DeviceReads(StateAfter(events), events, commonName);
    BlockImpliesEnrolled(events, commonName);
  }

  /** Once a fingerprint is revoked, nothing that happens later lets it in again. */
  lemma RevokedForGood(events: seq<Event>, later: seq<Event>, fingerprint: Name, commonName: Name)
    requires EverRevoked(events, fingerprint)
    ensures AccessOf(StateAfter(events + later), commonName, fingerprint) != Allowed
  {
    var i :| RevokesAt(events, fingerprint, i);
    assert RevokesAt(events + later, fingerprint, i);
    AccessReadsLog(events + later, commonName, fingerprint);
  }

  /** A block is lifted by an unblock of that identity and by nothing else, re-enrollment
      included. */
  lemma BlockHoldsUntilLifted(events: seq<Event>, later: seq<Event>, commonName: Name, fingerprint: Name)
    requires BlockedBy(events, commonName) && Unblocked(commonName) !in later
    ensures AccessOf(StateAfter(events + later), commonName, fingerprint) == Blocked
  {
    var all := events + later;
    var i :| BlockAt(events, commonName, i) && forall j :: j > i ==> !LiftAt(events, commonName, j);
    assert all[..i] == events[..i];
    assert BlockAt(all, commonName, i);
    forall j | j > i
      ensures !LiftAt(all, commonName, j)
    {
      if |events| <= j < |all| { assert all[j] == later[j - |events|]; }
      assert !LiftAt(events, commonName, j);
    }
    StateReadsLog(all);
    assert DeviceReads(StateAfter(all), all, commonName);
    BlockImpliesEnrolled(all, commonName);
  }

  // ----- Certificate ids -----

  lemma {:induction false} EnrollmentsConcat(events: seq<Event>, later: seq<Event>, n: nat)
    requires n <= |events|
    ensures Enrollments(events + later, n) == Enrollments(events, n)
  {
    if n > 0 { EnrollmentsConcat(events, later, n - 1); }
  }

  lemma {:induction false} EnrollmentsGrow(events: seq<Event>, i: nat, j: nat)
    requires i <= j <= |events|
    ensures Enrollments(events, i) <= Enrollments(events, j)
    decreases j
  {
    if i < j { EnrollmentsGrow(events, i, j - 1); }
  }

  /** An id is issued by one enrollment only. */
  lemma IdIssuedOnce(events: seq<Event>, i: nat, j: nat)
    requires i < |events| && j < |events| && events[i].Enrolled? && events[j].Enrolled?
    requires RowAt(events, i).id == RowAt(events, j).id
    ensures i == j
  {
    if i < j { EnrollmentsGrow(events, i + 1, j); }
    if j < i { EnrollmentsGrow(events, j + 1, i); }
  }

  lemma {:induction false} RowFrom(events: seq<Event>, n: nat, r: CertRecord) returns (i: nat)
    requires n <= |events| && r in Rows(events, n)
    ensures i < n && events[i].Enrolled? && r == RowAt(events, i)
  {
    if events[n - 1].Enrolled? && r == RowAt(events, n - 1) {
      i := n - 1;
    } else {
      i := RowFrom(events, n - 1, r);
    }
  }

  /** Certificate ids are never reused, not even after their row was deleted: whatever row
      carries an id the log has already issued is the row it was issued for, and new rows get
      greater ids. */
  lemma IdsNeverReused(events: seq<Event>, later: seq<Event>, i: nat, r: CertRecord)
    requires i < |events| && events[i].Enrolled? && r in StateAfter(events + later).certificates
    ensures r.id == RowAt(events, i).id ==> r == RowAt(events, i)
    ensures r.id > StateAfter(events).nextCertId || exists k :: 0 <= k < |events| && events[k].Enrolled? && r == RowAt(events, k)
  {
    var all := events + later;
    StateReadsLog(all);
    StateReadsLog(events);
    var k := RowFrom(all, |all|, r);
    EnrollmentsConcat(events, later, i);
    assert RowAt(all, i) == RowAt(events, i);
    if r.id == RowAt(events, i).id { IdIssuedOnce(all, i, k); }
    if k < |events| {
      EnrollmentsConcat(events, later, k);
      assert r == RowAt(events, k);
    } else {
      EnrollmentsConcat(events, later, |events|);
      EnrollmentsGrow(all, |events|, k);
    }
  }

  lemma {:induction false} WithoutIdSpec(rows: seq<CertRecord>, id: int)
    ensures forall r :: r in WithoutId(rows, id) <==> r in rows && r.id != id
  {
    if rows != [] {
      WithoutIdSpec(rows[..|rows| - 1], id);
      assert rows == rows[..|rows| - 1] + [rows[|rows| - 1]];
    }
  }
}
