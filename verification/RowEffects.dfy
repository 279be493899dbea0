/**
 Column by column, what the handlers leave in the rows they write; every column that is
 not named keeps its value.
 */
module RowEffects {
  import opened Basics
  import opened AuthModel
  import opened Sessions
  import opened SessionRuns
  import opened Administrators
  import opened UserRows

  // ----- users -----

  /** A committed PATCH sets what was asked for, requires MFA of an administrator, and
      counts a change of role in both versions and one of status in the security version. */
  lemma PatchedRow(e: Event, db: Db)
    requires e.AdminPatch? && e.user in db.users && Commits(e, db)
    ensures e.user in Apply(e, db).users
    ensures var was, now := db.users[e.user], Apply(e, db).users[e.user];
      && (e.role.Some? ==> now.role == e.role.value) && (e.role.None? ==> now.role == was.role)
      && (e.status.Some? ==> now.status == e.status.value) && (e.status.None? ==> now.status == was.status)
      && (now.mfaRequired <==> now.role == ADMIN || was.mfaRequired)
      && now.roleVersion == was.roleVersion + (if now.role != was.role then 1 else 0)
      && now.securityVersion ==
         was.securityVersion + (if now.role != was.role || now.status != was.status then 1 else 0)
      && now == was.(role := now.role, status := now.status, mfaRequired := now.mfaRequired,
                     roleVersion := now.roleVersion, securityVersion := now.securityVersion)
    ensures Apply(e, db) == db.(users := db.users[e.user := Apply(e, db).users[e.user]])
  {
    GuardedRollsBack(e, db);
  }

  /** A committed unlock activates the account, whatever its status was, and clears the
      failure count and the lock. */
  lemma UnlockedRow(e: Event, db: Db)
    requires e.AdminUnlock? && e.user in db.users && Commits(e, db)
    ensures Apply(e, db) ==
      db.(users := db.users[e.user := db.users[e.user].(status := ACTIVE, failedLoginCount := 0, lockedUntil := None)])
  {
    GuardedRollsBack(e, db);
  }

  /** A committed MFA reset removes the user's secret and codes, withdraws the enrolment,
      requires a new one and ends the access tokens. */
  lemma MfaResetRows(e: Event, db: Db)
    requires e.AdminResetMfa? && e.user in db.users && Commits(e, db)
    ensures var was, d := db.users[e.user], Apply(e, db);
      && d.users == db.users[e.user := was.(
           mfaEnrolledAt := None, mfaRequired := true, securityVersion := was.securityVersion + 1)]
      && d.sessions == db.sessions && d.resets == db.resets && d.secrets == db.secrets - {e.user}
      && (forall h :: h in d.codes <==> h in db.codes && db.codes[h].userId != e.user)
      && (forall h :: h in d.codes ==> d.codes[h] == db.codes[h])
  {
    GuardedRollsBack(e, db);
  }

  /** A committed deletion removes the user and every row of the user, and no other. */
  lemma DeletedRows(e: Event, db: Db)
    requires e.AdminDelete? && e.user in db.users && Commits(e, db)
    ensures var d := Apply(e, db);
      && d.users == db.users - {e.user} && d.secrets == db.secrets - {e.user}
      && (forall i :: i in d.sessions <==> i in db.sessions && db.sessions[i].userId != e.user)
      && (forall i :: i in d.sessions ==> d.sessions[i] == db.sessions[i])
      && (forall h :: h in d.resets <==> h in db.resets && db.resets[h].userId != e.user)
      && (forall h :: h in d.resets ==> d.resets[h] == db.resets[h])
      && (forall h :: h in d.codes <==> h in db.codes && db.codes[h].userId != e.user)
      && (forall h :: h in d.codes ==> d.codes[h] == db.codes[h])
  {
    GuardedRollsBack(e, db);
  }

  /** A usable reset token sets the new password hash, counts it in both versions, clears
      failures and lock, and leaves the status as it was; the user's unused tokens and
      live sessions end at that time, and nothing else changes. */
  lemma ResetRows(e: Event, db: Db)
    requires e.ResetPassword? && ResetUsable(db, e.resetToken, e.now)
    ensures var u := db.resets[e.resetToken].userId;
      var was, d := db.users[u], Apply(e, db);
      && d.users == db.users[u := was.(
           passwordHash := e.password, passwordHashVersion := was.passwordHashVersion + 1,
           securityVersion := was.securityVersion + 1, failedLoginCount := 0, lockedUntil := None)]
      && EndedAt(db.sessions, d.sessions, u, e.now)
      && RetiredAt(db.resets, d.resets, u, e.now)
      && d.codes == db.codes && d.secrets == db.secrets
  {
    ResetEffect(e, db);
  }

  /** The live sessions of user u are revoked at that time; all others are as before. */
  ghost predicate EndedAt(was: map<SessionId, Session>, now: map<SessionId, Session>, u: UserId, at: Time) {
    && now.Keys == was.Keys
    && forall i :: i in was ==>
         now[i] == if was[i].userId == u && was[i].revokedAt.None? then was[i].(revokedAt := Some(at)) else was[i]
  }

  /** The unused tokens of user u are marked used at that time; all others are as before. */
  ghost predicate RetiredAt(was: map<Hash, OneTimeToken>, now: map<Hash, OneTimeToken>, u: UserId, at: Time) {
    && now.Keys == was.Keys
    && forall h :: h in was ==>
         now[h] == if was[h].userId == u && was[h].usedAt.None? then was[h].(usedAt := Some(at)) else was[h]
  }

  /** Verifying an address records when, and activates an account that waits for it. */
  lemma VerifiedRow(e: Event, db: Db)
    requires e.VerifyEmail? && e.user in db.users
    ensures e.user in Apply(e, db).users
    ensures var was, now := db.users[e.user], Apply(e, db).users[e.user];
      && now == was.(emailVerifiedAt := Some(e.now), status := now.status)
      && now.status == (if was.status == PENDING_VERIFICATION then ACTIVE else was.status)
      && Apply(e, db) == db.(users := db.users[e.user := now])
  {
    RunOne(UpdateUser(e.user, EmailVerified(e.now)), db);
  }

  /** An accepted login clears failures and lock and opens a session of a new family for
      seven days. */
  lemma LoggedInRows(e: Event, db: Db)
    requires e.Login? && LoginAccepted(db, e) && e.newId !in db.sessions
    ensures Apply(e, db) == db.(
      users := db.users[e.user := db.users[e.user].(failedLoginCount := 0, lockedUntil := None)],
      sessions := db.sessions[e.newId := Session(e.user, e.newHash, e.newFamily, e.now + 604800000, None, None)])
  {
    LoginEffect(e, db);
  }

  /** A refused login counts one more failure; the fifth, and every later one, locks the
      account and sets a lock time fifteen minutes ahead. */
  lemma RefusedRow(e: Event, db: Db)
    requires e.Login? && e.user in db.users && !LoginAccepted(db, e)
    ensures var was := db.users[e.user];
      Apply(e, db) == db.(users := db.users[e.user :=
        if was.failedLoginCount >= 4
        then was.(failedLoginCount := was.failedLoginCount + 1, status := LOCKED, lockedUntil := Some(e.now + 900000))
        else was.(failedLoginCount := was.failedLoginCount + 1)])
  {
    RunOne(UpdateUser(e.user, LoginFailed(e.now)), db);
  }

  // ----- sessions and tokens -----

  /** A granted refresh adds a session of the same user and family for seven days and
      links the old one to it, revoked now. */
  lemma RotatedRows(e: Event, db: Db, id: SessionId)
    requires e.Refresh? && Consistent(db) && e.newId !in db.sessions
    requires HoldsToken(db, id, e.token) && Rotatable(db, id, e.at)
    ensures var was := db.sessions[id];
      Apply(e, db) == db.(sessions := db.sessions[
        id := was.(revokedAt := Some(e.now), replacedBy := Some(e.newId))][
        e.newId := Session(was.userId, e.newHash, was.family, e.now + 604800000, None, None)])
  {
    FindIsUnique(db, id, e.token);
    RotationEffect(e, db);
  }

  /** A refused refresh of a token that was not replaced ends the live sessions of its
      family at that time. */
  lemma RefusedFamily(e: Event, db: Db, id: SessionId)
    requires e.Refresh? && Consistent(db) && HoldsToken(db, id, e.token) && !Rotatable(db, id, e.at)
    requires db.sessions[id].revokedAt.None? || db.sessions[id].replacedBy.None?
    ensures Apply(e, db) == db.(sessions := Apply(e, db).sessions) && Apply(e, db).sessions.Keys == db.sessions.Keys
    ensures forall i :: i in db.sessions ==>
      Apply(e, db).sessions[i] ==
        (if db.sessions[i].family == db.sessions[id].family && db.sessions[i].revokedAt.None?
         then db.sessions[i].(revokedAt := Some(e.now)) else db.sessions[i])
  {
    RefusalEffect(e, db, id);
  }

  /** The administrator's revocation and a log-out everywhere end the user's live sessions
      at that time. */
  lemma EverywhereEnded(e: Event, db: Db)
    requires e.LogoutAll? || (e.AdminRevokeSessions? && e.user in db.users && Commits(e, db))
    ensures EndedAt(db.sessions, Apply(e, db).sessions, e.user, e.now)
    ensures Apply(e, db) == db.(sessions := Apply(e, db).sessions)
  {
    if e.LogoutAll? {
      RunOne(RevokeUser(e.user, e.now), db);
    } else {
      RevocationNeedsASecondAdmin(e, db);
    }
  }

  /** A log-out revokes the one session of the token, if it is live. */
  lemma LoggedOutRow(e: Event, db: Db, id: SessionId)
    requires e.Logout? && Consistent(db) && HoldsToken(db, id, e.token)
    ensures var was := db.sessions[id];
      Apply(e, db) == if was.revokedAt.Some? then db
                      else db.(sessions := db.sessions[id := was.(revokedAt := Some(e.now))])
  {
    FindIsUnique(db, id, e.token);
    RunOne(RevokeSession(id, e.now), db);
  }

  /** An issued reset token lives for thirty minutes and belongs to the user who asked. */
  lemma IssuedReset(e: Event, db: Db)
    requires e.IssueReset? && e.user in db.users && e.newReset !in db.resets
    ensures Apply(e, db) == db.(resets := db.resets[e.newReset := OneTimeToken(e.user, e.now + 1800000, None)])
  {
    RunOne(InsertReset(e.newReset, OneTimeToken(e.user, e.now + RESET_TTL, None)), db);
  }

  // ----- passwords over runs -----

  ghost predicate ResetsPasswordOf(e: Event, db: Db, u: UserId) {
    e.ResetPassword? && ResetUsable(db, e.resetToken, e.now) && db.resets[e.resetToken].userId == u
  }

  /** Nothing but a usable reset changes the password of a user who stays. */
  lemma OnlyResetsChangePassword(e: Event, db: Db, u: UserId)
    requires u in db.users && u in Apply(e, db).users && FreshFor(e, NamesIn(db))
    ensures Apply(e, db).users[u].passwordHash ==
      if ResetsPasswordOf(e, db, u) then e.password else db.users[u].passwordHash
  {
    RowAfter(e, db, u);
    if ResetsPasswordOf(e, db, u) {
      ResetEffect(e, db);
    }
  }

  /** The password of the last usable reset of user u, or the one at the start. */
  ghost function LastPassword(log: seq<Event>, db: Db, u: UserId): Hash
    requires u in db.users
  {
    if log == [] then db.users[u].passwordHash
    else
      var init, e := log[..|log| - 1], log[|log| - 1];
      if ResetsPasswordOf(e, Replay(init, db), u) then e.password else LastPassword(init, db, u)
  }

  /** Over any run the password of a user is that of the last usable reset. */
  lemma {:induction false} PasswordIsLastReset(log: seq<Event>, db: Db, u: UserId)
    requires FreshRun(log, db) && u in db.users && u in Replay(log, db).users
    ensures Replay(log, db).users[u].passwordHash == LastPassword(log, db, u)
  {
    if log != [] {
      assert log[..0] == [];
      PresentThroughout(log, db, 0, u);
      PasswordIsLastReset(log[..|log| - 1], db, u);
      StaysFresh(log, db);
      OnlyResetsChangePassword(log[|log| - 1], Replay(log[..|log| - 1], db), u);
    }
  }

  // ----- roles over runs -----

  ghost predicate PatchesRoleOf(e: Event, db: Db, u: UserId) {
    e.AdminPatch? && e.user == u && u in db.users && e.role.Some? && Commits(e, db)
  }

  /** Nothing but a committed PATCH that names a role changes the role of a user who stays. */
  lemma OnlyPatchesChangeRole(e: Event, db: Db, u: UserId)
    requires u in db.users && u in Apply(e, db).users && FreshFor(e, NamesIn(db))
    ensures Apply(e, db).users[u].role == if PatchesRoleOf(e, db, u) then e.role.value else db.users[u].role
  {
    RowAfter(e, db, u);
    if e.AdminPatch? && e.user == u && Commits(e, db) {
      PatchedRow(e, db);
    }
  }

  /** The role in the last committed PATCH of user u that names one, or the one at the start. */
  ghost function LastRole(log: seq<Event>, db: Db, u: UserId): Role
    requires u in db.users
  {
    if log == [] then db.users[u].role
    else
      var init, e := log[..|log| - 1], log[|log| - 1];
      if PatchesRoleOf(e, Replay(init, db), u) then e.role.value else LastRole(init, db, u)
  }

  /** Over any run the role of a user is the one given by the last committed PATCH. */
  lemma {:induction false} RoleIsLastPatch(log: seq<Event>, db: Db, u: UserId)
    requires FreshRun(log, db) && u in db.users && u in Replay(log, db).users
    ensures Replay(log, db).users[u].role == LastRole(log, db, u)
  {
    if log != [] {
      assert log[..0] == [];
      PresentThroughout(log, db, 0, u);
      RoleIsLastPatch(log[..|log| - 1], db, u);
      StaysFresh(log, db);
      OnlyPatchesChangeRole(log[|log| - 1], Replay(log[..|log| - 1], db), u);
    }
  }
}
