/**
 The tables behind authentication and the requests that change them.

 Every handler is a program: a sequence of SQL statements chosen from the rows it
 reads.  `Do` is the effect of one statement on a database, `Run` the effect of a
 program, and `Apply` the effect of a whole handler, where an exception rolls the
 database back.  Identifiers and token hashes are opaque numbers; times are
 milliseconds.
 */
module AuthModel {
  import opened Basics

  type UserId = nat
  type SessionId = nat
  type Hash = nat
  type Family = nat
  type Time = int
  type SecretId = nat
  type RequestId = nat

  const REFRESH_TTL: int := 7 * 24 * 60 * 60 * 1000
  const RESET_TTL: int := 30 * 60 * 1000
  const LOGIN_LOCK: int := 15 * 60 * 1000
  const FAILURE_LIMIT: nat := 5

  datatype Role = USER | ADMIN
  datatype Status = ACTIVE | DISABLED | LOCKED | PENDING_VERIFICATION

  datatype User = User(
    passwordHash: Hash, passwordHashVersion: nat,
    role: Role, roleVersion: nat, securityVersion: nat, status: Status,
    emailVerifiedAt: Option<Time>, failedLoginCount: nat, lockedUntil: Option<Time>,
    mfaRequired: bool, mfaEnrolledAt: Option<Time>)

  datatype Session = Session(
    userId: UserId, tokenHash: Hash, family: Family, expiresAt: Time,
    revokedAt: Option<Time>, replacedBy: Option<SessionId>)
  {
    predicate Live() { revokedAt.None? }
  }

  datatype OneTimeToken = OneTimeToken(userId: UserId, expiresAt: Time, usedAt: Option<Time>)
  datatype RecoveryCode = RecoveryCode(userId: UserId, usedAt: Option<Time>)
  datatype Secret = Secret(id: SecretId, confirmed: bool)

  /** One-time tokens and recovery codes are keyed by their unique hash column, and the
      one MFA secret a user can have by its owner. */
  datatype Db = Db(
    users: map<UserId, User>,
    sessions: map<SessionId, Session>,
    resets: map<Hash, OneTimeToken>,
    codes: map<Hash, RecoveryCode>,
    secrets: map<UserId, Secret>)

  // ----- statements -----

  /** The UPDATE statements on a row of `users`. */
  datatype UserChange =
    | PasswordReset(passwordHash: Hash)
    | RoleStatus(role: Role, status: Status, mfaRequired: bool)
    | MfaCleared
    | MfaConfirmed(at: Time)
    | Unlocked
    | EmailVerified(at: Time)
    | LoginFailed(now: Time)
    | LoginSucceeded

  datatype Stmt =
    | InsertUser(user: UserId, row: User)
    | UpdateUser(user: UserId, change: UserChange)
    | DropUser(user: UserId)
    | InsertSession(session: SessionId, data: Session)
    | RotateSession(session: SessionId, at: Time, successor: SessionId)
    | RevokeSession(session: SessionId, at: Time)
    | RevokeFamily(family: Family, at: Time)
    | RevokeUser(user: UserId, at: Time)
    | InsertReset(hash: Hash, token: OneTimeToken)
    | UseResets(user: UserId, at: Time)
    | DropMfa(user: UserId)
    | OfferMfa(user: UserId, secret: SecretId)
    | EnrolMfa(user: UserId, hashes: seq<Hash>)
    | RequireAdmins(at: Time, count: nat)

  function ChangeUser(u: User, c: UserChange): User {
    match c
    case PasswordReset(h) =>
      u.(passwordHash := h, passwordHashVersion := u.passwordHashVersion + 1,
         securityVersion := u.securityVersion + 1, failedLoginCount := 0, lockedUntil := None)
    case RoleStatus(role, status, mfa) =>
      u.(role := role, status := status, mfaRequired := mfa,
         roleVersion := if u.role != role then u.roleVersion + 1 else u.roleVersion,
         securityVersion := if u.status != status || u.role != role then u.securityVersion + 1 else u.securityVersion)
    case MfaCleared =>
      u.(mfaEnrolledAt := None, mfaRequired := true, securityVersion := u.securityVersion + 1)
    case MfaConfirmed(at) =>
      u.(mfaRequired := true, mfaEnrolledAt := Some(at))
    case Unlocked =>
      u.(status := ACTIVE, failedLoginCount := 0, lockedUntil := None)
    case EmailVerified(at) =>
      u.(emailVerifiedAt := Some(at), status := if u.status == PENDING_VERIFICATION then ACTIVE else u.status)
    case LoginFailed(now) =>
      var u' := u.(failedLoginCount := u.failedLoginCount + 1);
      if u'.failedLoginCount >= FAILURE_LIMIT
      then u'.(lockedUntil := Some(now + LOGIN_LOCK), status := LOCKED)
      else u'
    case LoginSucceeded =>
      u.(failedLoginCount := 0, lockedUntil := None)
  }

  function Revoked(s: Session, at: Time): Session {
    if s.Live() then s.(revokedAt := Some(at)) else s
  }

  // ----- the rows a WHERE clause selects -----

  ghost function LiveOfFamily(s: map<SessionId, Session>, f: Family, at: Time): map<SessionId, Session> {
    map i | i in s && s[i].family == f && s[i].Live() :: s[i].(revokedAt := Some(at))
  }

  ghost function LiveOfUser(s: map<SessionId, Session>, u: UserId, at: Time): map<SessionId, Session> {
    map i | i in s && s[i].userId == u && s[i].Live() :: s[i].(revokedAt := Some(at))
  }

  ghost function UnusedOf(r: map<Hash, OneTimeToken>, u: UserId, at: Time): map<Hash, OneTimeToken> {
    map h | h in r && r[h].userId == u && r[h].usedAt.None? :: r[h].(usedAt := Some(at))
  }

  ghost function SessionsNotOf(s: map<SessionId, Session>, u: UserId): map<SessionId, Session> {
    map i | i in s && s[i].userId != u :: s[i]
  }

  ghost function ResetsNotOf(r: map<Hash, OneTimeToken>, u: UserId): map<Hash, OneTimeToken> {
    map h | h in r && r[h].userId != u :: r[h]
  }

  ghost function CodesNotOf(c: map<Hash, RecoveryCode>, u: UserId): map<Hash, RecoveryCode> {
    map h | h in c && c[h].userId != u :: c[h]
  }

  function NewCodes(u: UserId, hashes: seq<Hash>): map<Hash, RecoveryCode> {
    map h | h in hashes :: RecoveryCode(u, None)
  }

  // ----- recoverable administrators -----

  ghost predicate HasUnusedCode(codes: map<Hash, RecoveryCode>, u: UserId) {
    exists h :: h in codes && codes[h].userId == u && codes[h].usedAt.None?
  }

  predicate EligibleAdmin(row: User, now: Time) {
    && row.role == ADMIN && row.status == ACTIVE
    && row.emailVerifiedAt.Some? && row.mfaEnrolledAt.Some?
    && (row.lockedUntil.None? || row.lockedUntil.value <= now)
  }

  ghost function RecoverableAdmins(db: Db, now: Time): set<UserId> {
    set u | u in db.users && EligibleAdmin(db.users[u], now) && HasUnusedCode(db.codes, u)
  }

  // ----- the effect of statements and programs -----

  predicate AllDiffer<T(==)>(s: seq<T>) {
    forall i, j :: 0 <= i < j < |s| ==> s[i] != s[j]
  }

  /** A statement is applicable when the rows it names exist; foreign keys make any
      other use of it fail. */
  ghost predicate Applicable(s: Stmt, db: Db) {
    match s
    case InsertUser(u, _) => u !in db.users
    case UpdateUser(u, _) => u in db.users
    case DropUser(u) => u in db.users
    case InsertSession(id, row) => id !in db.sessions && row.userId in db.users
    case RotateSession(id, _, _) => id in db.sessions
    case RevokeSession(id, _) => id in db.sessions
    case RevokeFamily(_, _) => true
    case RevokeUser(_, _) => true
    case InsertReset(h, t) => h !in db.resets && t.userId in db.users
    case UseResets(_, _) => true
    case DropMfa(_) => true
    case OfferMfa(u, _) => u in db.users
    case EnrolMfa(u, hs) => u in db.users && AllDiffer(hs) && forall h :: h in hs ==> h !in CodesNotOf(db.codes, u)
    case RequireAdmins(at, n) => |RecoverableAdmins(db, at)| >= n
  }

  ghost function Do(s: Stmt, db: Db): Db
    requires Applicable(s, db)
  {
    match s
    case InsertUser(u, row) => db.(users := db.users[u := row])
    case UpdateUser(u, c) => db.(users := db.users[u := ChangeUser(db.users[u], c)])
    case DropUser(u) =>
      Db(db.users - {u}, SessionsNotOf(db.sessions, u), ResetsNotOf(db.resets, u), CodesNotOf(db.codes, u),
         db.secrets - {u})
    case InsertSession(id, row) => db.(sessions := db.sessions[id := row])
    case RotateSession(id, at, successor) =>
      db.(sessions := db.sessions[id := db.sessions[id].(revokedAt := Some(at), replacedBy := Some(successor))])
    case RevokeSession(id, at) => db.(sessions := db.sessions[id := Revoked(db.sessions[id], at)])
    case RevokeFamily(f, at) => db.(sessions := db.sessions + LiveOfFamily(db.sessions, f, at))
    case RevokeUser(u, at) => db.(sessions := db.sessions + LiveOfUser(db.sessions, u, at))
    case InsertReset(h, t) => db.(resets := db.resets[h := t])
    case UseResets(u, at) => db.(resets := db.resets + UnusedOf(db.resets, u, at))
    case DropMfa(u) => db.(codes := CodesNotOf(db.codes, u), secrets := db.secrets - {u})
    case OfferMfa(u, secret) => db.(secrets := db.secrets[u := Secret(secret, false)])
    case EnrolMfa(u, hs) =>
      db.(codes := CodesNotOf(db.codes, u) + NewCodes(u, hs),
          secrets := if u in db.secrets then db.secrets[u := db.secrets[u].(confirmed := true)] else db.secrets)
    case RequireAdmins(_, _) => db
  }

  /** The statements in order; `None` when one of them raises. */
  ghost function Run(p: seq<Stmt>, db: Db): Option<Db> {
    if p == [] then Some(db)
    else if Applicable(p[0], db) then Run(p[1..], Do(p[0], db))
    else None
  }

  lemma RunOne(s: Stmt, db: Db)
    ensures Run([s], db) == if Applicable(s, db) then Some(Do(s, db)) else None
  {
    assert [s][1..] == [];
  }

  lemma {:induction false} RunConcat(p: seq<Stmt>, q: seq<Stmt>, db: Db)
    ensures Run(p + q, db) == if Run(p, db).Some? then Run(q, Run(p, db).value) else None
  {
    if p == [] {
      assert p + q == q;
    } else {
      assert (p + q)[1..] == p[1..] + q;
      if Applicable(p[0], db) {
        RunConcat(p[1..], q, Do(p[0], db));
      }
    }
  }

  lemma RunTwo(a: Stmt, b: Stmt, db: Db)
    ensures Run([a, b], db) ==
      if Applicable(a, db) && Applicable(b, Do(a, db)) then Some(Do(b, Do(a, db))) else None
  {
    RunConcat([a], [b], db);
    RunOne(a, db);
    if Applicable(a, db) {
      RunOne(b, Do(a, db));
    }
    assert [a, b] == [a] + [b];
  }

  // ----- requests -----

  /** A handler call with what it read from the clock and the random source: `now` is
      the start of the transaction, `at` the clock when a decision is taken.  What one request
      does outside a transaction is several events: a request for a reset token retires
      the old ones and then issues the new one, and confirming MFA checks a code before
      the transaction that is the event here.  `request` tells which belong together. */
  datatype Event =
    | Refresh(now: Time, at: Time, token: Hash, newId: SessionId, newHash: Hash)
    | ResetPassword(now: Time, resetToken: Hash, password: Hash)
    | AdminRevokeSessions(now: Time, user: UserId)
    | AdminPatch(now: Time, user: UserId, role: Option<Role>, status: Option<Status>)
    | AdminDelete(now: Time, user: UserId)
    | AdminResetMfa(now: Time, user: UserId)
    | AdminUnlock(now: Time, user: UserId)
    | CreateUser(now: Time, user: UserId, row: User)
    | Login(now: Time, user: UserId, passwordOk: bool, newId: SessionId, newHash: Hash, newFamily: Family)
    | Logout(now: Time, token: Hash)
    | LogoutAll(now: Time, user: UserId)
    | RevokeOne(now: Time, user: UserId, session: SessionId)
    | RetireResets(now: Time, user: UserId, request: RequestId)
    | IssueReset(now: Time, user: UserId, newReset: Hash, request: RequestId)
    | VerifyEmail(now: Time, user: UserId)
    | BeginMfa(now: Time, user: UserId, secret: SecretId)
    | ConfirmMfa(now: Time, user: UserId, newCodes: seq<Hash>, request: RequestId)

  ghost predicate HoldsToken(db: Db, id: SessionId, token: Hash) {
    id in db.sessions && db.sessions[id].tokenHash == token
  }

  ghost function FindSession(db: Db, token: Hash): (r: Option<SessionId>)
    ensures r.Some? ==> HoldsToken(db, r.value, token)
    ensures r.None? ==> forall id :: !HoldsToken(db, id, token)
  {
    if exists id :: HoldsToken(db, id, token)
    then var id :| HoldsToken(db, id, token); Some(id)
    else None
  }

  /** The refresh handler accepts this row: unrevoked, unexpired, owner active. */
  predicate Rotatable(db: Db, id: SessionId, at: Time) {
    && id in db.sessions && db.sessions[id].userId in db.users
    && db.sessions[id].Live() && at < db.sessions[id].expiresAt
    && db.users[db.sessions[id].userId].status == ACTIVE
  }

  ghost predicate Accepts(db: Db, e: Event)
    requires e.Refresh?
  {
    var found := FindSession(db, e.token);
    found.Some? && Rotatable(db, found.value, e.at)
  }

  ghost predicate LoginAccepted(db: Db, e: Event)
    requires e.Login?
  {
    && e.user in db.users && e.passwordOk && db.users[e.user].status == ACTIVE
    && !(db.users[e.user].lockedUntil.Some? && db.users[e.user].lockedUntil.value > e.now)
  }

  predicate ResetUsable(db: Db, token: Hash, now: Time) {
    && token in db.resets && db.resets[token].usedAt.None? && db.resets[token].expiresAt > now
    && db.resets[token].userId in db.users
  }

  function Requested<T>(r: Option<T>, current: T): T {
    if r.Some? then r.value else current
  }

  ghost function RefreshProgram(e: Event, db: Db): seq<Stmt>
    requires e.Refresh?
  {
    match FindSession(db, e.token)
    case None => []
    case Some(id) =>
      var s := db.sessions[id];
      if Rotatable(db, id, e.at) then
        [InsertSession(e.newId, Session(s.userId, e.newHash, s.family, e.now + REFRESH_TTL, None, None)),
         RotateSession(id, e.now, e.newId)]
      else if s.revokedAt.Some? && s.replacedBy.Some? then []
      else [RevokeFamily(s.family, e.now)]
  }

  ghost function PatchProgram(e: Event, row: User): seq<Stmt>
    requires e.AdminPatch?
  {
    var role := Requested(e.role, row.role);
    var status := Requested(e.status, row.status);
    [UpdateUser(e.user, RoleStatus(role, status, role == ADMIN || row.mfaRequired))]
    + if row.role == ADMIN || role == ADMIN then [RequireAdmins(e.now, 1)] else []
  }

  ghost function GuardIfAdmin(row: User, now: Time, n: nat): seq<Stmt> {
    if row.role == ADMIN then [RequireAdmins(now, n)] else []
  }

  /** The statements a handler sends, given the rows it reads. */
  ghost function Program(e: Event, db: Db): seq<Stmt> {
    match e
    case Refresh(_, _, _, _, _) => RefreshProgram(e, db)
    case ResetPassword(now, t, pw) =>
      if !ResetUsable(db, t, now) then []
      else var u := db.resets[t].userId; [UpdateUser(u, PasswordReset(pw)), UseResets(u, now), RevokeUser(u, now)]
    case AdminRevokeSessions(now, u) =>
      if u !in db.users then [] else GuardIfAdmin(db.users[u], now, 2) + [RevokeUser(u, now)]
    case AdminPatch(_, u, _, _) =>
      if u !in db.users then [] else PatchProgram(e, db.users[u])
    case AdminDelete(now, u) =>
      if u !in db.users then [] else [DropUser(u)] + GuardIfAdmin(db.users[u], now, 1)
    case AdminResetMfa(now, u) =>
      if u !in db.users then []
      else [DropMfa(u), UpdateUser(u, MfaCleared)] + GuardIfAdmin(db.users[u], now, 1)
    case AdminUnlock(now, u) =>
      if u !in db.users then [] else [UpdateUser(u, Unlocked)] + GuardIfAdmin(db.users[u], now, 1)
    case CreateUser(_, u, row) => [InsertUser(u, row)]
    case Login(now, u, _, id, h, f) =>
      if u !in db.users then []
      else if LoginAccepted(db, e) then
        [UpdateUser(u, LoginSucceeded), InsertSession(id, Session(u, h, f, now + REFRESH_TTL, None, None))]
      else [UpdateUser(u, LoginFailed(now))]
    case Logout(now, t) =>
      (match FindSession(db, t) case None => [] case Some(id) => [RevokeSession(id, now)])
    case LogoutAll(now, u) => [RevokeUser(u, now)]
    case RevokeOne(now, u, id) =>
      if id in db.sessions && db.sessions[id].userId == u &&
        db.sessions[id].Live() then [RevokeSession(id, now)] else []
    case RetireResets(now, u, _) =>
      if u !in db.users then [] else [UseResets(u, now)]
    case IssueReset(now, u, h, _) =>
      if u !in db.users then [] else [InsertReset(h, OneTimeToken(u, now + RESET_TTL, None))]
    case VerifyEmail(now, u) =>
      if u !in db.users then [] else [UpdateUser(u, EmailVerified(now))]
    case BeginMfa(_, u, secret) =>
      if u !in db.users then [] else [OfferMfa(u, secret)]
    case ConfirmMfa(now, u, hs, _) =>
      if u !in db.users then [] else [EnrolMfa(u, hs), UpdateUser(u, MfaConfirmed(now))]
  }

  /** A handler commits its program or, when a statement raises, rolls back. */
  ghost function Apply(e: Event, db: Db): Db {
    match Run(Program(e, db), db)
    case Some(db') => db'
    case None => db
  }

  ghost predicate Commits(e: Event, db: Db) {
    Run(Program(e, db), db).Some?
  }

  /** A run: the handlers one after the other. */
  ghost function Replay(log: seq<Event>, db: Db): Db {
    if log == [] then db else Apply(log[|log| - 1], Replay(log[..|log| - 1], db))
  }

  /** The state before the i-th handler of a run. */
  ghost function At(log: seq<Event>, db: Db, i: nat): Db
    requires i <= |log|
  {
    Replay(log[..i], db)
  }

  lemma {:induction false} ReplayStep(log: seq<Event>, db: Db, i: nat)
    requires i < |log|
    ensures At(log, db, i + 1) == Apply(log[i], At(log, db, i))
  {
    assert log[..i + 1][..i] == log[..i];
  }

  /** What the random source supplies to a handler. */
  function NewIds(e: Event): set<SessionId> {
    match e
    case Refresh(_, _, _, id, _) => {id}
    case Login(_, _, _, id, _, _) => {id}
    case _ => {}
  }

  function NewHashes(e: Event): set<Hash> {
    match e
    case Refresh(_, _, _, _, h) => {h}
    case Login(_, _, _, _, h, _) => {h}
    case _ => {}
  }

  function NewFamilies(e: Event): set<Family> {
    match e
    case Login(_, _, _, _, _, f) => {f}
    case _ => {}
  }

  function NewUsers(e: Event): set<UserId> {
    match e
    case CreateUser(_, u, _) => {u}
    case _ => {}
  }
}
