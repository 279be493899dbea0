/** What one handler does to one row of `users`. */
module UserRows {
  import opened Basics
  import opened AuthModel
  import opened Sessions
  import opened SessionRuns
  import opened Administrators

  /** The change a committed handler makes to the row of user u, if any. */
  ghost function ChangeOf(e: Event, db: Db, u: UserId): Option<UserChange>
    requires u in db.users
  {
    var row := db.users[u];
    match e
    case ResetPassword(now, t, pw) =>
      if ResetUsable(db, t, now) && db.resets[t].userId == u then Some(PasswordReset(pw)) else None
    case AdminPatch(_, v, role, status) =>
      if v == u then
        var r := Requested(role, row.role);
        Some(RoleStatus(r, Requested(status, row.status), r == ADMIN || row.mfaRequired))
      else None
    case AdminResetMfa(_, v) => if v == u then Some(MfaCleared) else None
    case AdminUnlock(_, v) => if v == u then Some(Unlocked) else None
    case Login(now, v, _, _, _, _) =>
      if v != u then None else if LoginAccepted(db, e) then Some(LoginSucceeded) else Some(LoginFailed(now))
    case VerifyEmail(now, v) => if v == u then Some(EmailVerified(now)) else None
    case ConfirmMfa(now, v, _, _) => if v == u then Some(MfaConfirmed(now)) else None
    case _ => None
  }

  predicate TouchesUser(s: Stmt, u: UserId) {
    match s
    case InsertUser(v, _) => v == u
    case UpdateUser(v, _) => v == u
    case DropUser(v) => v == u
    case _ => false
  }

  lemma {:induction false} RunKeepsRow(p: seq<Stmt>, db: Db, u: UserId)
    requires u in db.users && Run(p, db).Some?
    requires forall s :: s in p ==> !TouchesUser(s, u)
    ensures u in Run(p, db).value.users && Run(p, db).value.users[u] == db.users[u]
  {
    if p != [] {
      assert p[0] in p;
      assert forall s :: s in p[1..] ==> s in p;
      RunKeepsRow(p[1..], Do(p[0], db), u);
    }
  }

  lemma UntouchedRow(e: Event, db: Db, u: UserId)
    requires u in db.users && Commits(e, db) && ChangeOf(e, db, u).None? && !(e.AdminDelete? && e.user == u)
    ensures u in Apply(e, db).users && Apply(e, db).users[u] == db.users[u]
  {
    var p := Program(e, db);
    if e.CreateUser? {
      RunOne(p[0], db);
    } else {
      if e.AdminPatch? && e.user in db.users {
        assert forall s :: s in PatchProgram(e, db.users[e.user]) ==> !TouchesUser(s, u);
      }
      RunKeepsRow(p, db, u);
    }
  }

  /** The rows of `users` after a handler, one at a time. */
  lemma RowAfter(e: Event, db: Db, u: UserId)
    requires u in db.users && (e.Login? ==> e.newId !in db.sessions)
    ensures e.AdminDelete? && e.user == u && Commits(e, db) ==> u !in Apply(e, db).users
    ensures !(e.AdminDelete? && e.user == u && Commits(e, db)) ==>
      && u in Apply(e, db).users
      && Apply(e, db).users[u] ==
           if Commits(e, db) && ChangeOf(e, db, u).Some? then ChangeUser(db.users[u], ChangeOf(e, db, u).value)
           else db.users[u]
  {
    if Commits(e, db) {
      if ChangeOf(e, db, u).None? && !(e.AdminDelete? && e.user == u) {
        UntouchedRow(e, db, u);
      } else if Guarded(e) {
        GuardedRollsBack(e, db);
      } else if e.ResetPassword? {
        ResetEffect(e, db);
      } else if e.Login? && LoginAccepted(db, e) {
        LoginEffect(e, db);
      } else if e.ConfirmMfa? {
        var p := Program(e, db);
        RunConcat([p[0]], [p[1]], db);
        RunOne(p[0], db);
        RunOne(p[1], Do(p[0], db));
        assert p == [p[0]] + [p[1]];
      } else {
        RunOne(Program(e, db)[0], db);
      }
    }
  }

  // ----- a deleted user does not come back -----

  lemma {:induction false} GoneStaysGone(log: seq<Event>, db: Db, i: nat, u: UserId)
    requires FreshRun(log, db) && i <= |log|
    requires u in Used(log[..i], db).users && u !in At(log, db, i).users
    ensures u !in Replay(log, db).users
  {
    if i == |log| {
      assert log[..i] == log;
    } else {
      var init := log[..|log| - 1];
      assert init[..i] == log[..i];
      GoneStaysGone(init, db, i, u);
      StaysFresh(log, db);
      UsedGrows(init, db, i);
      AppliedNames(log[|log| - 1], Replay(init, db));
    }
  }

  lemma PresentThroughout(log: seq<Event>, db: Db, i: nat, u: UserId)
    requires FreshRun(log, db) && i <= |log| && u in At(log, db, i).users && u in Replay(log, db).users
    ensures i < |log| ==> u in Replay(log[..|log| - 1], db).users
  {
    if i < |log| {
      var init := log[..|log| - 1];
      FreshPrefix(log, db, i);
      UsedCovers(log[..i], db);
      assert init[..i] == log[..i];
      UsedGrows(init, db, i);
      if u !in Replay(init, db).users {
        assert log[..|init|] == init;
        GoneStaysGone(log, db, |init|, u);
      }
    }
  }
}
