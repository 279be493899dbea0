/**
 The handlers as they run: statements that update the tables one after the other, and
 a rollback that puts the old rows back when one raises.  Each is proved to have the
 effect, and to give the answer, that the model of requests assigns to it.
 */
module AuthHandlers {
  import opened Basics
  import opened AuthModel
  import opened Sessions
  import opened SessionRuns
  import opened Administrators
  import opened OneTimeTokens
  import opened MfaEnrolment

  datatype Failure = FinalAdministratorRequired | UserNotFound

  /** Whether one more code can be stored shows in the table, and it adds one row. */
  lemma NextCode(codes: map<Hash, RecoveryCode>, hashes: seq<Hash>, i: nat, user: UserId)
    requires i < |hashes| && AllDiffer(hashes[..i]) && forall h :: h in hashes[..i] ==> h !in codes
    ensures var now := codes + NewCodes(user, hashes[..i]);
      if hashes[i] in now then !AllDiffer(hashes) || hashes[i] in codes
      else AllDiffer(hashes[..i + 1]) && (forall h :: h in hashes[..i + 1] ==> h !in codes)
           && codes + NewCodes(user, hashes[..i + 1]) == now[hashes[i] := RecoveryCode(user, None)]
  {
    assert hashes[..i + 1] == hashes[..i] + [hashes[i]];
    if hashes[i] in hashes[..i] {
      var j :| 0 <= j < i && hashes[..i][j] == hashes[i];
      assert hashes[j] == hashes[i];
    }
  }

  class AuthDatabase {
    var users: map<UserId, User>
    var sessions: map<SessionId, Session>
    var resets: map<Hash, OneTimeToken>
    var codes: map<Hash, RecoveryCode>
    var secrets: map<UserId, Secret>

    ghost function View(): Db
      reads this
    {
      Db(users, sessions, resets, codes, secrets)
    }

    constructor ()
      ensures View() == Db(map[], map[], map[], map[], map[])
    {
      users, sessions, resets, codes, secrets := map[], map[], map[], map[], map[];
    }

    // ----- queries -----

    method SelectSession(token: Hash) returns (r: Option<SessionId>)
      requires Consistent(View())
      ensures r == FindSession(View(), token)
    {
      r := None;
      var rest := sessions.Keys;
      while rest != {}
        invariant rest <= sessions.Keys
        invariant forall i :: i in sessions.Keys - rest ==> sessions[i].tokenHash != token
      {
        var i :| i in rest;
        if sessions[i].tokenHash == token {
          assert HoldsToken(View(), i, token);
          FindIsUnique(View(), i, token);
          return Some(i);
        }
        rest := rest - {i};
      }
      assert forall i :: !HoldsToken(View(), i, token);
    }

    method ExistsUnusedCode(u: UserId) returns (found: bool)
      ensures found == HasUnusedCode(codes, u)
    {
      var rest := codes.Keys;
      found := false;
      while rest != {}
        invariant rest <= codes.Keys
        invariant forall h :: h in codes.Keys - rest ==> !(codes[h].userId == u && codes[h].usedAt.None?)
      {
        var h :| h in rest;
        if codes[h].userId == u && codes[h].usedAt.None? {
          return true;
        }
        rest := rest - {h};
      }
    }

    /** recoverableAdministratorCount: a scan of the user table. */
    method RecoverableAdministratorCount(now: Time) returns (n: nat)
      ensures n == |RecoverableAdmins(View(), now)|
    {
      var rest := users.Keys;
      ghost var seen: set<UserId> := {};
      n := 0;
      while rest != {}
        invariant rest <= users.Keys && n == |seen|
        invariant seen == set u | u in users.Keys - rest && u in RecoverableAdmins(View(), now)
      {
        var u :| u in rest;
        var coded := ExistsUnusedCode(u);
        var row := users[u];
        if row.role == ADMIN && row.status == ACTIVE && row.emailVerifiedAt.Some? && row.mfaEnrolledAt.Some?
           && (row.lockedUntil.None? || row.lockedUntil.value <= now) && coded {
          n := n + 1;
          assert u in RecoverableAdmins(View(), now);
          seen := seen + {u};
        }
        rest := rest - {u};
      }
      assert seen == RecoverableAdmins(View(), now);
    }

    // ----- statements on several rows -----

    method DeleteRows(user: UserId)
      requires user in users
      modifies this
      ensures View() == Do(DropUser(user), old(View()))
    {
      users, secrets := users - {user}, secrets - {user};
      sessions := map i | i in sessions && sessions[i].userId != user :: sessions[i];
      resets := map h | h in resets && resets[h].userId != user :: resets[h];
      codes := map h | h in codes && codes[h].userId != user :: codes[h];
    }

    method DeleteMfaRows(user: UserId)
      modifies this`codes, this`secrets
      ensures View() == Do(DropMfa(user), old(View()))
    {
      secrets := secrets - {user};
      codes := map h | h in codes && codes[h].userId != user :: codes[h];
    }

    method RevokeLiveRows(user: UserId, now: Time) returns (count: nat)
      modifies this`sessions
      ensures View() == Do(RevokeUser(user, now), old(View()))
      ensures count == |LiveOfUser(old(sessions), user, now)|
    {
      var revoked := map i | i in sessions && sessions[i].userId == user && sessions[i].Live()
                          :: sessions[i].(revokedAt := Some(now));
      sessions := sessions + revoked;
      count := |revoked|;
    }

    // ----- transactions -----

    method Refresh(now: Time, at: Time, token: Hash, newId: SessionId, newHash: Hash) returns (valid: bool)
      requires Consistent(View()) && newId !in sessions
      modifies this
      ensures View() == Apply(Event.Refresh(now, at, token, newId, newHash), old(View()))
      ensures valid == Accepts(old(View()), Event.Refresh(now, at, token, newId, newHash))
    {
      ghost var e, db := Event.Refresh(now, at, token, newId, newHash), View();
      var row := SelectSession(token);
      if row.None? {
        return false;
      }
      var session := sessions[row.value];
      if session.revokedAt.Some? || session.expiresAt <= at || users[session.userId].status != ACTIVE {
        var concurrent := session.revokedAt.Some? && session.replacedBy.Some?;
        if !concurrent {
          sessions := sessions + map i | i in sessions && sessions[i].family == session.family && sessions[i].Live()
                                       :: sessions[i].(revokedAt := Some(now));
          RunOne(RevokeFamily(session.family, now), db);
        }
        return false;
      }
      sessions := sessions[newId := Session(session.userId, newHash, session.family, now + REFRESH_TTL, None, None)];
      sessions := sessions[row.value := sessions[row.value].(revokedAt := Some(now), replacedBy := Some(newId))];
      RotationEffect(e, db);
      return true;
    }

    method ResetPassword(now: Time, resetToken: Hash, password: Hash) returns (done: bool)
      modifies this
      ensures View() == Apply(Event.ResetPassword(now, resetToken, password), old(View()))
      ensures done == ResetUsable(old(View()), resetToken, now)
    {
      ghost var e, db := Event.ResetPassword(now, resetToken, password), View();
      if !(resetToken in resets && resets[resetToken].usedAt.None? && resets[resetToken].expiresAt > now
           && resets[resetToken].userId in users) {
        return false;
      }
      ResetEffect(e, db);
      var u := resets[resetToken].userId;
      var row := users[u];
      users := users[u := row.(passwordHash := password, passwordHashVersion := row.passwordHashVersion + 1,
                               failedLoginCount := 0, lockedUntil := None, securityVersion := row.securityVersion + 1)];
      resets := resets + map h | h in resets && resets[h].userId == u && resets[h].usedAt.None?
                               :: resets[h].(usedAt := Some(now));
      sessions := sessions + map i | i in sessions && sessions[i].userId == u && sessions[i].Live()
                                   :: sessions[i].(revokedAt := Some(now));
      return true;
    }

    /** What a caller of a guarded route is told. */
    static ghost function Answer(e: Event, db: Db): Result<(), Failure>
      requires Guarded(e)
    {
      if e.user !in db.users then Err(UserNotFound)
      else if Commits(e, db) then Ok(())
      else Err(FinalAdministratorRequired)
    }

    method PatchUser(now: Time, user: UserId, role: Option<Role>, status: Option<Status>) returns (r: Result<(),
          Failure>)
      modifies this
      ensures View() == Apply(AdminPatch(now, user, role, status), old(View()))
      ensures r == Answer(AdminPatch(now, user, role, status), old(View()))
    {
      ghost var e, db := AdminPatch(now, user, role, status), View();
      if user !in users {
        return Err(UserNotFound);
      }
      GuardedRollsBack(e, db);
      var saved := users;
      var row := users[user];
      var newRole := if role.Some? then role.value else row.role;
      var newStatus := if status.Some? then status.value else row.status;
      var changed := row.(role := newRole, status := newStatus, mfaRequired := newRole == ADMIN || row.mfaRequired);
      if row.role != newRole {
        changed := changed.(roleVersion := row.roleVersion + 1);
      }
      if row.status != newStatus || row.role != newRole {
        changed := changed.(securityVersion := row.securityVersion + 1);
      }
      users := users[user := changed];
      assert View() == Attempt(e, db);
      if row.role == ADMIN || newRole == ADMIN {
        var n := RecoverableAdministratorCount(now);
        if n < 1 {
          users := saved;
          return Err(FinalAdministratorRequired);
        }
      }
      return Ok(());
    }

    method DeleteUser(now: Time, user: UserId) returns (r: Result<(), Failure>)
      modifies this
      ensures View() == Apply(AdminDelete(now, user), old(View()))
      ensures r == Answer(AdminDelete(now, user), old(View()))
    {
      ghost var e, db := AdminDelete(now, user), View();
      if user !in users {
        return Err(UserNotFound);
      }
      GuardedRollsBack(e, db);
      var savedUsers, savedSessions, savedResets, savedCodes, savedSecrets := users, sessions, resets, codes, secrets;
      var role := users[user].role;
      DeleteRows(user);
      assert View() == Attempt(e, db);
      if role == ADMIN {
        var n := RecoverableAdministratorCount(now);
        if n < 1 {
          users, sessions, resets, codes, secrets := savedUsers, savedSessions, savedResets, savedCodes, savedSecrets;
          return Err(FinalAdministratorRequired);
        }
      }
      return Ok(());
    }

    method ResetMfa(now: Time, user: UserId) returns (r: Result<(), Failure>)
      modifies this
      ensures View() == Apply(AdminResetMfa(now, user), old(View()))
      ensures r == Answer(AdminResetMfa(now, user), old(View()))
    {
      ghost var e, db := AdminResetMfa(now, user), View();
      if user !in users {
        return Err(UserNotFound);
      }
      GuardedRollsBack(e, db);
      var savedUsers, savedCodes, savedSecrets := users, codes, secrets;
      var role := users[user].role;
      DeleteMfaRows(user);
      var row := users[user];
      users := users[user := row.(mfaEnrolledAt := None, mfaRequired := true,
                                  securityVersion := row.securityVersion + 1)];
      assert View() == Attempt(e, db);
      if role == ADMIN {
        var n := RecoverableAdministratorCount(now);
        if n < 1 {
          users, codes, secrets := savedUsers, savedCodes, savedSecrets;
          return Err(FinalAdministratorRequired);
        }
      }
      return Ok(());
    }

    method UnlockUser(now: Time, user: UserId) returns (r: Result<(), Failure>)
      modifies this
      ensures View() == Apply(AdminUnlock(now, user), old(View()))
      ensures r == Answer(AdminUnlock(now, user), old(View()))
    {
      ghost var e, db := AdminUnlock(now, user), View();
      if user !in users {
        return Err(UserNotFound);
      }
      GuardedRollsBack(e, db);
      var saved := users;
      users := users[user := users[user].(status := ACTIVE, failedLoginCount := 0, lockedUntil := None)];
      assert View() == Attempt(e, db);
      if users[user].role == ADMIN {
        var n := RecoverableAdministratorCount(now);
        if n < 1 {
          users := saved;
          return Err(FinalAdministratorRequired);
        }
      }
      return Ok(());
    }

    method RevokeSessions(now: Time, user: UserId) returns (r: Result<nat, Failure>)
      modifies this
      ensures View() == Apply(AdminRevokeSessions(now, user), old(View()))
      ensures r.Ok? <==> user in old(users) && Commits(AdminRevokeSessions(now, user), old(View()))
      ensures r.Err? ==> r.error == if user in old(users) then FinalAdministratorRequired else UserNotFound
      ensures r.Ok? ==> r.value == |LiveOfUser(old(sessions), user, now)|
    {
      ghost var e, db := AdminRevokeSessions(now, user), View();
      if user !in users {
        return Err(UserNotFound);
      }
      RevocationNeedsASecondAdmin(e, db);
      if users[user].role == ADMIN {
        var n := RecoverableAdministratorCount(now);
        if n < 2 {
          return Err(FinalAdministratorRequired);
        }
      }
      var count := RevokeLiveRows(user, now);
      return Ok(count);
    }

    // ----- whole-list handlers -----

    method Login(now: Time, user: UserId, passwordOk: bool, newId: SessionId, newHash: Hash, newFamily: Family)
      returns (ok: bool)
      requires newId !in sessions
      modifies this
      ensures View() == Apply(Event.Login(now, user, passwordOk, newId, newHash, newFamily), old(View()))
      ensures ok == LoginAccepted(old(View()), Event.Login(now, user, passwordOk, newId, newHash, newFamily))
    {
      ghost var e, db := Event.Login(now, user, passwordOk, newId, newHash, newFamily), View();
      if user !in users {
        return false;
      }
      var u := users[user];
      if !passwordOk || u.status != ACTIVE || (u.lockedUntil.Some? && u.lockedUntil.value > now) {
        RunOne(UpdateUser(user, LoginFailed(now)), db);
        CountFailure(now, user);
        return false;
      }
      u := u.(failedLoginCount := 0);
      u := u.(lockedUntil := None);
      users := users[user := u];
      sessions := sessions[newId := Session(user, newHash, newFamily, now + REFRESH_TTL, None, None)];
      LoginEffect(e, db);
      return true;
    }

    /** A failed attempt: one more failure, and from the fifth on the account is locked. */
    method CountFailure(now: Time, user: UserId)
      requires user in users
      modifies this`users
      ensures View() == Do(UpdateUser(user, LoginFailed(now)), old(View()))
    {
      var u := users[user];
      u := u.(failedLoginCount := u.failedLoginCount + 1);
      if u.failedLoginCount >= FAILURE_LIMIT {
        u := u.(lockedUntil := Some(now + LOGIN_LOCK));
        u := u.(status := LOCKED);
      }
      users := users[user := u];
    }

    method LogoutEverywhere(now: Time, user: UserId)
      modifies this`sessions
      ensures View() == Apply(LogoutAll(now, user), old(View()))
    {
      ghost var before := sessions;
      var rest := sessions.Keys;
      while rest != {}
        invariant rest <= before.Keys && sessions.Keys == before.Keys
        invariant forall i :: i in rest ==> sessions[i] == before[i]
        invariant forall i :: i in before.Keys - rest ==>
          sessions[i] == if before[i].userId == user then Revoked(before[i], now) else before[i]
      {
        var i :| i in rest;
        if sessions[i].userId == user && sessions[i].Live() {
          sessions := sessions[i := sessions[i].(revokedAt := Some(now))];
        }
        rest := rest - {i};
      }
      assert sessions == before + LiveOfUser(before, user, now);
      RunOne(RevokeUser(user, now), old(View()));
    }

    /** revokeRefreshToken, on log-out. */
    method RevokeRefreshToken(now: Time, token: Hash)
      requires Consistent(View())
      modifies this`sessions
      ensures View() == Apply(Logout(now, token), old(View()))
    {
      var found := SelectSession(token);
      if found.Some? {
        RunOne(RevokeSession(found.value, now), old(View()));
        if sessions[found.value].Live() {
          sessions := sessions[found.value := sessions[found.value].(revokedAt := Some(now))];
        }
        assert View() == Do(RevokeSession(found.value, now), old(View()));
      }
    }

    /** One owned session; false when there is no such live session. */
    method RevokeOwnSession(now: Time, user: UserId, id: SessionId) returns (revoked: bool)
      modifies this`sessions
      ensures View() == Apply(RevokeOne(now, user, id), old(View()))
      ensures revoked <==> id in old(sessions) && old(sessions)[id].userId == user && old(sessions)[id].Live()
    {
      if id !in sessions || sessions[id].userId != user || !sessions[id].Live() {
        return false;
      }
      RunOne(RevokeSession(id, now), View());
      sessions := sessions[id := sessions[id].(revokedAt := Some(now))];
      revoked := true;
    }

    /** Retires the user's unused reset tokens and issues one, with nothing in between. */
    method ForgotPassword(now: Time, user: UserId, newReset: Hash, request: RequestId) returns (sent: bool)
      modifies this`resets
      ensures View() ==
        Apply(IssueReset(now, user, newReset, request), Apply(RetireResets(now, user, request), old(View())))
      ensures sent == Issues(IssueReset(now, user, newReset, request), old(View()), user)
    {
      if user !in users {
        return false;
      }
      RetireEffect(RetireResets(now, user, request), View());
      resets := resets + map h | h in resets && resets[h].userId == user && resets[h].usedAt.None?
                              :: resets[h].(usedAt := Some(now));
      IssueEffect(IssueReset(now, user, newReset, request), View());
      if newReset in resets {
        return false;
      }
      resets := resets[newReset := OneTimeToken(user, now + RESET_TTL, None)];
      sent := true;
    }

    // ----- MFA enrolment -----

    /** beginSetup: a new secret that is not confirmed replaces the old one. */
    method BeginSetup(now: Time, user: UserId, secret: SecretId)
      requires user in users
      modifies this`secrets
      ensures View() == Apply(BeginMfa(now, user, secret), old(View()))
    {
      RunOne(OfferMfa(user, secret), View());
      secrets := secrets[user := Secret(secret, false)];
    }

    /** The first half of confirmSetup: the secret that waits for its first code is read
        and the code checked against it. */
    method CheckSetup(user: UserId, verifies: SecretId -> bool) returns (passed: bool)
      ensures passed <==> SetupOpen(View(), user) && verifies(secrets[user].id)
    {
      if user !in secrets || secrets[user].confirmed {
        return false;
      }
      passed := verifies(secrets[user].id);
    }

    /** The second half of confirmSetup, in a transaction of its own: whatever secret the
        user has by now is confirmed. */
    method ConfirmSetup(now: Time, user: UserId, newCodes: seq<Hash>, request: RequestId) returns (stored: bool)
      modifies this
      ensures View() == Apply(ConfirmMfa(now, user, newCodes, request), old(View()))
      ensures stored == Confirms(ConfirmMfa(now, user, newCodes, request), old(View()), user)
    {
      ghost var e, db := ConfirmMfa(now, user, newCodes, request), View();
      ConfirmEffect(e, db);
      if user !in users {
        return false;
      }
      var savedCodes, savedSecrets := codes, secrets;
      if user in secrets {
        secrets := secrets[user := secrets[user].(confirmed := true)];
      }
      codes := map h | h in codes && codes[h].userId != user :: codes[h];
      stored := InsertCodes(user, newCodes);
      if !stored {
        codes, secrets := savedCodes, savedSecrets;
        return;
      }
      users := users[user := users[user].(mfaRequired := true, mfaEnrolledAt := Some(now))];
    }

    /** The insertions one by one, until one meets a hash that exists. */
    method InsertCodes(user: UserId, newCodes: seq<Hash>) returns (stored: bool)
      modifies this`codes
      ensures stored <==> AllDiffer(newCodes) && forall h :: h in newCodes ==> h !in old(codes)
      ensures stored ==> codes == old(codes) + NewCodes(user, newCodes)
    {
      for i := 0 to |newCodes|
        invariant AllDiffer(newCodes[..i]) && forall h :: h in newCodes[..i] ==> h !in old(codes)
        invariant codes == old(codes) + NewCodes(user, newCodes[..i])
      {
        NextCode(old(codes), newCodes, i, user);
        if newCodes[i] in codes {
          return false;
        }
        codes := codes[newCodes[i] := RecoveryCode(user, None)];
      }
      assert newCodes[..|newCodes|] == newCodes;
      stored := true;
    }
  }
}
