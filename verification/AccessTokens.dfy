/**
 Access tokens: the claims they carry, when the clock lets them pass, and why an
 accepted token proves that nothing security-relevant happened to its user since it
 was issued.
 */
module AccessTokens {
  import opened Basics
  import opened AuthModel
  import opened Sessions
  import opened SessionRuns
  import opened UserRows

  const ACCESS_TTL: int := 600
  const SKEW: int := 30

  datatype Claims = Claims(
    sub: UserId, role: Role, jti: nat, iat: int, nbf: int, exp: int, iss: string, aud: string,
    securityVersion: nat, roleVersion: nat, mfa: bool)

  /** A signed token; `mac` below is the keyed digest of its claims. */
  datatype Token = Token(claims: Claims, signature: nat)

  datatype Config = Config(issuer: string, audience: string)

  function Issue(c: Config, mac: Claims -> nat, id: UserId, u: User, jti: nat, now: int, mfa: bool): Token {
    var claims := Claims(id, u.role, jti, now, now, now + ACCESS_TTL, c.issuer, c.audience,
                         u.securityVersion, u.roleVersion, mfa);
    Token(claims, mac(claims))
  }

  /** verifyAccessToken, with `now` in whole seconds. */
  function Verify(c: Config, mac: Claims -> nat, t: Token, now: int): Option<Claims> {
    var k := t.claims;
    if k.iss != c.issuer || k.aud != c.audience
       || k.iat > now + SKEW || k.nbf > now + SKEW || k.exp <= now || k.exp - k.iat > ACCESS_TTL + SKEW
       || t.signature != mac(k)
    then None else Some(k)
  }

  /** authenticatedUser: a verified token whose user is active and unchanged. */
  predicate Authenticates(c: Config, mac: Claims -> nat, db: Db, t: Token, now: int) {
    match Verify(c, mac, t, now)
    case None => false
    case Some(k) =>
      && k.sub in db.users && db.users[k.sub].status == ACTIVE && db.users[k.sub].role == k.role
      && db.users[k.sub].securityVersion == k.securityVersion && db.users[k.sub].roleVersion == k.roleVersion
  }

  /** A token verifies exactly when its signature is the keyed digest of its claims, the
      server issued it for itself, and the clock lies between thirty seconds before its
      start and its end, in a lifetime of at most ten minutes and a half. */
  lemma VerifiesExactly(c: Config, mac: Claims -> nat, t: Token, now: int)
    ensures Verify(c, mac, t, now).Some? <==>
      && t.signature == mac(t.claims)
      && t.claims.iss == c.issuer && t.claims.aud == c.audience
      && t.claims.iat - 30 <= now && t.claims.nbf - 30 <= now < t.claims.exp
      && t.claims.exp <= t.claims.iat + 630
    ensures Verify(c, mac, t, now).Some? ==> Verify(c, mac, t, now).value == t.claims
  {}

  /** A request is authenticated exactly when its token verifies and names an active user
      whose role and versions are those of the token. */
  lemma AuthenticatesExactly(c: Config, mac: Claims -> nat, db: Db, t: Token, now: int)
    ensures Authenticates(c, mac, db, t, now) <==>
      && t.signature == mac(t.claims) && Verify(c, mac, t, now).Some?
      && t.claims.sub in db.users
      && db.users[t.claims.sub].status == ACTIVE && db.users[t.claims.sub].role == t.claims.role
      && db.users[t.claims.sub].securityVersion == t.claims.securityVersion
      && db.users[t.claims.sub].roleVersion == t.claims.roleVersion
  {}

  /** What a signed token says: whose it is, with role and versions as they are now, for
      ten minutes from now. */
  lemma IssuedClaims(c: Config, mac: Claims -> nat, id: UserId, u: User, jti: nat, now: int, mfa: bool)
    ensures var t := Issue(c, mac, id, u, jti, now, mfa);
      && t.claims.sub == id && t.claims.role == u.role && t.claims.jti == jti && t.claims.mfa == mfa
      && t.claims.securityVersion == u.securityVersion && t.claims.roleVersion == u.roleVersion
      && t.claims.iat == t.claims.nbf == now && t.claims.exp == now + 600
      && t.signature == mac(t.claims)
    ensures Verify(c, mac, Issue(c, mac, id, u, jti, now, mfa), now).Some?
  {}

  /** While its user is active and unchanged, a token issued at `issued` passes exactly
      from thirty seconds before that moment to ten minutes after it. */
  lemma AcceptanceWindow(c: Config, mac: Claims -> nat, db: Db, db': Db, id: UserId, jti: nat, issued: int,
        now: int, mfa: bool)
    requires id in db.users && id in db'.users && db'.users[id].status == ACTIVE
    requires db'.users[id].role == db.users[id].role
    requires db'.users[id].securityVersion == db.users[id].securityVersion
    requires db'.users[id].roleVersion == db.users[id].roleVersion
    ensures Authenticates(c, mac, db', Issue(c, mac, id, db.users[id], jti, issued, mfa), now)
        <==> issued - SKEW <= now < issued + ACCESS_TTL
  {}

  // ----- no ABA -----

  /** A committed change of role or status by an administrator, an MFA reset or a
      password reset of user u. */
  ghost predicate SecurityChange(e: Event, db: Db, u: UserId) {
    && u in db.users && Commits(e, db)
    && match e
       case ResetPassword(now, t, _) => ResetUsable(db, t, now) && db.resets[t].userId == u
       case AdminPatch(_, v, role, status) =>
         v == u && (Requested(role, db.users[u].role) != db.users[u].role
                    || Requested(status, db.users[u].status) != db.users[u].status)
       case AdminResetMfa(_, v) => v == u
       case _ => false
  }

  lemma VersionStep(e: Event, db: Db, u: UserId)
    requires u in db.users && u in Apply(e, db).users && FreshFor(e, NamesIn(db))
    ensures Apply(e, db).users[u].securityVersion
         >= db.users[u].securityVersion + (if SecurityChange(e, db, u) then 1 else 0)
    ensures Apply(e, db).users[u].roleVersion >= db.users[u].roleVersion
    ensures Apply(e, db).users[u].role != db.users[u].role ==>
      Apply(e, db).users[u].roleVersion > db.users[u].roleVersion
  {
    RowAfter(e, db, u);
  }

  ghost predicate ChangedWithin(log: seq<Event>, db: Db, i: nat, u: UserId)
    requires i <= |log|
  {
    exists k :: i <= k < |log| && SecurityChange(log[k], At(log, db, k), u)
  }

  lemma ChangedSplits(log: seq<Event>, db: Db, i: nat, u: UserId)
    requires i < |log|
    ensures ChangedWithin(log, db, i, u) ==>
      ChangedWithin(log[..|log| - 1], db, i, u) || SecurityChange(log[|log| - 1], Replay(log[..|log| - 1], db), u)
  {
    var init := log[..|log| - 1];
    if ChangedWithin(log, db, i, u) {
      var k :| i <= k < |log| && SecurityChange(log[k], At(log, db, k), u);
      if k < |init| {
        assert init[..k] == log[..k] && init[k] == log[k];
      } else {
        assert log[..k] == init;
      }
    }
  }

  lemma {:induction false} VersionsGrow(log: seq<Event>, db: Db, i: nat, u: UserId)
    requires FreshRun(log, db) && i <= |log| && u in At(log, db, i).users && u in Replay(log, db).users
    ensures var a, b := At(log, db, i).users[u], Replay(log, db).users[u];
      && b.securityVersion >= a.securityVersion + (if ChangedWithin(log, db, i, u) then 1 else 0)
      && b.roleVersion >= a.roleVersion
  {
    if i == |log| {
      assert log[..i] == log;
    } else {
      var init, e := log[..|log| - 1], log[|log| - 1];
      PresentThroughout(log, db, i, u);
      assert init[..i] == log[..i];
      VersionsGrow(init, db, i, u);
      StaysFresh(log, db);
      VersionStep(e, Replay(init, db), u);
      ChangedSplits(log, db, i, u);
    }
  }

  /** A token that authenticates proves that between its issue and now no role change,
      administrative status change, MFA reset or password reset of its user committed. */
  lemma NoABA(c: Config, mac: Claims -> nat, log: seq<Event>, db: Db, i: nat, u: UserId,
              jti: nat, issued: int, now: int, mfa: bool)
    requires FreshRun(log, db) && i <= |log| && u in At(log, db, i).users
    requires Authenticates(c, mac, Replay(log, db), Issue(c, mac, u, At(log, db, i).users[u], jti, issued, mfa), now)
    ensures !ChangedWithin(log, db, i, u)
    ensures issued - SKEW <= now < issued + ACCESS_TTL
  {
    VersionsGrow(log, db, i, u);
  }
}
