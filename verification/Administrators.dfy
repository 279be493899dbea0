/**
 The final recoverable administrator: no sequence of administrative changes leaves the
 system without one, and a change that would is rolled back.
 */
module Administrators {
  import opened Basics
  import opened AuthModel

  /** The routes that change or remove a user and then count administrators. */
  predicate Guarded(e: Event) {
    e.AdminPatch? || e.AdminDelete? || e.AdminResetMfa? || e.AdminUnlock?
  }

  /** What a guarded route writes before it counts. */
  ghost function Writes(e: Event, row: User): seq<Stmt>
    requires Guarded(e)
  {
    match e
    case AdminPatch(_, u, role, status) =>
      var r := Requested(role, row.role);
      [UpdateUser(u, RoleStatus(r, Requested(status, row.status), r == ADMIN || row.mfaRequired))]
    case AdminDelete(_, u) => [DropUser(u)]
    case AdminResetMfa(_, u) => [DropMfa(u), UpdateUser(u, MfaCleared)]
    case AdminUnlock(_, u) => [UpdateUser(u, Unlocked)]
  }

  predicate ConcernsAdmin(e: Event, row: User)
    requires Guarded(e)
  {
    row.role == ADMIN || (e.AdminPatch? && e.role == Some(ADMIN))
  }

  /** The database a guarded route would leave behind without the count. */
  ghost function Attempt(e: Event, db: Db): (d: Db)
    requires Guarded(e) && e.user in db.users
    ensures Run(Writes(e, db.users[e.user]), db) == Some(d)
  {
    var w := Writes(e, db.users[e.user]);
    RunOne(w[0], db);
    if |w| == 1 then
      assert w == [w[0]];
      Do(w[0], db)
    else
      RunConcat([w[0]], [w[1]], db);
      RunOne(w[1], Do(w[0], db));
      assert w == [w[0]] + [w[1]];
      Do(w[1], Do(w[0], db))
  }

  /** A guarded change concerning an administrator commits exactly when a recoverable
      administrator is left; otherwise every row is as before. */
  lemma GuardedRollsBack(e: Event, db: Db)
    requires Guarded(e) && e.user in db.users
    ensures Commits(e, db) <==>
      (ConcernsAdmin(e, db.users[e.user]) ==> RecoverableAdmins(Attempt(e, db), e.now) != {})
    ensures Apply(e, db) == if Commits(e, db) then Attempt(e, db) else db
  {
    var row := db.users[e.user];
    var guard := if ConcernsAdmin(e, row) then [RequireAdmins(e.now, 1)] else [];
    assert Program(e, db) == Writes(e, row) + guard;
    RunConcat(Writes(e, row), guard, db);
    assert Run(Program(e, db), db) == Run(guard, Attempt(e, db));
    if guard != [] {
      RunOne(RequireAdmins(e.now, 1), Attempt(e, db));
      var s := RecoverableAdmins(Attempt(e, db), e.now);
      assert |s| >= 1 ==> s != {};
      assert s != {} ==> |s| >= 1;
    }
  }

  /** Revoking an administrator's sessions needs a second recoverable administrator. */
  lemma RevocationNeedsASecondAdmin(e: Event, db: Db)
    requires e.AdminRevokeSessions? && e.user in db.users
    ensures Commits(e, db) <==> (db.users[e.user].role == ADMIN ==> |RecoverableAdmins(db, e.now)| >= 2)
    ensures Apply(e, db) == if Commits(e, db) then Do(RevokeUser(e.user, e.now), db) else db
    ensures RecoverableAdmins(Apply(e, db), e.now) == RecoverableAdmins(db, e.now)
  {
    var guard := GuardIfAdmin(db.users[e.user], e.now, 2);
    RunConcat(guard, [RevokeUser(e.user, e.now)], db);
    RunOne(RevokeUser(e.user, e.now), db);
    if guard != [] {
      RunOne(guard[0], db);
    }
  }

  // ----- statements that make nobody unrecoverable -----

  predicate Harmless(s: Stmt) {
    match s
    case UpdateUser(_, c) => c.PasswordReset? || c.EmailVerified? || c.LoginSucceeded? || c.MfaConfirmed?
    case DropUser(_) => false
    case DropMfa(_) => false
    case EnrolMfa(_, hs) => hs != []
    case _ => true
  }

  lemma HarmlessStmt(s: Stmt, db: Db, t: Time)
    requires Harmless(s) && Applicable(s, db)
    ensures RecoverableAdmins(db, t) <= RecoverableAdmins(Do(s, db), t)
  {
    var d := Do(s, db);
    forall u | u in RecoverableAdmins(db, t)
      ensures u in RecoverableAdmins(d, t)
    {
      var h :| h in db.codes && db.codes[h].userId == u && db.codes[h].usedAt.None?;
      if s.EnrolMfa? && s.user == u {
        var k := s.hashes[0];
        assert k in d.codes && d.codes[k].userId == u && d.codes[k].usedAt.None?;
      } else {
        assert h in d.codes && d.codes[h] == db.codes[h];
      }
      assert HasUnusedCode(d.codes, u);
    }
  }

  lemma {:induction false} HarmlessRun(p: seq<Stmt>, db: Db, t: Time)
    requires Run(p, db).Some? && forall s :: s in p ==> Harmless(s)
    ensures RecoverableAdmins(db, t) <= RecoverableAdmins(Run(p, db).value, t)
  {
    if p != [] {
      assert p[0] in p;
      HarmlessStmt(p[0], db, t);
      assert forall s :: s in p[1..] ==> s in p;
      HarmlessRun(p[1..], Do(p[0], db), t);
    }
  }

  /** Enrolment always hands out recovery codes. */
  predicate HandsOutCodes(e: Event) {
    e.ConfirmMfa? ==> e.newCodes != []
  }

  ghost predicate Refused(e: Event, db: Db) {
    e.Login? && e.user in db.users && !LoginAccepted(db, e)
  }

  lemma HarmlessEvent(e: Event, db: Db, t: Time)
    requires !Guarded(e) && !Refused(e, db) && HandsOutCodes(e)
    ensures RecoverableAdmins(db, t) <= RecoverableAdmins(Apply(e, db), t)
  {
    if Commits(e, db) {
      HarmlessRun(Program(e, db), db, t);
    }
  }

  lemma RecoverableLater(db: Db, t: Time, t': Time)
    requires t <= t'
    ensures RecoverableAdmins(db, t) <= RecoverableAdmins(db, t')
  {}

  /** Changing somebody who is not and does not become an administrator is harmless. */
  lemma UserChangeIsHarmless(e: Event, db: Db, t: Time)
    requires Guarded(e) && e.user in db.users && !ConcernsAdmin(e, db.users[e.user])
    ensures RecoverableAdmins(db, t) <= RecoverableAdmins(Attempt(e, db), t)
  {
    var d := Attempt(e, db);
    forall u | u in RecoverableAdmins(db, t)
      ensures u in RecoverableAdmins(d, t)
    {
      var h :| h in db.codes && db.codes[h].userId == u && db.codes[h].usedAt.None?;
      assert u != e.user;
      assert h in d.codes && d.codes[h] == db.codes[h];
      assert HasUnusedCode(d.codes, u);
    }
  }

  /** What a refused login does to the administrators: from the fifth failure on, and
      only then, its user is no longer one that can recover the system. */
  lemma FailedLoginEffect(e: Event, db: Db, t: Time)
    requires Refused(e, db)
    ensures RecoverableAdmins(Apply(e, db), t) ==
      RecoverableAdmins(db, t) - if db.users[e.user].failedLoginCount + 1 >= FAILURE_LIMIT then {e.user} else {}
  {
    RunOne(UpdateUser(e.user, LoginFailed(e.now)), db);
    assert Apply(e, db).codes == db.codes;
  }

  /** A refused login of the only user who can recover the system, with four failures
      or more counted already. */
  ghost predicate LocksLastAdmin(e: Event, db: Db, t: Time) {
    && Refused(e, db) && db.users[e.user].failedLoginCount + 1 >= FAILURE_LIMIT
    && RecoverableAdmins(db, t) == {e.user}
  }

  /** A login ends the last administrator exactly when it is of that kind. */
  lemma LoginLocksLastAdminExactly(e: Event, db: Db, t: Time)
    requires e.Login? && e.user in db.users && RecoverableAdmins(db, t) != {}
    ensures RecoverableAdmins(Apply(e, db), t) == {} <==> LocksLastAdmin(e, db, t)
  {
    if LoginAccepted(db, e) {
      HarmlessEvent(e, db, t);
    } else {
      FailedLoginEffect(e, db, t);
    }
  }

  /** A handler leaves a recoverable administrator unless it is such a login. */
  lemma EventKeepsAnAdmin(e: Event, db: Db, t: Time)
    requires e.now <= t && HandsOutCodes(e) && RecoverableAdmins(db, t) != {}
    ensures RecoverableAdmins(Apply(e, db), t) != {} <==> !LocksLastAdmin(e, db, t)
  {
    if e.Login? && e.user in db.users {
      LoginLocksLastAdminExactly(e, db, t);
    } else if !Guarded(e) {
      HarmlessEvent(e, db, t);
    } else if e.user in db.users {
      GuardedRollsBack(e, db);
      if Commits(e, db) {
        if ConcernsAdmin(e, db.users[e.user]) {
          RecoverableLater(Apply(e, db), e.now, t);
        } else {
          UserChangeIsHarmless(e, db, t);
        }
      }
    }
  }

  lemma {:induction false} AdministratorUpTo(log: seq<Event>, db: Db, t: Time, i: nat)
    requires i <= |log| && RecoverableAdmins(db, t) != {}
    requires forall e :: e in log ==> e.now <= t && HandsOutCodes(e)
    requires forall j :: 0 <= j < i ==> !LocksLastAdmin(log[j], At(log, db, j), t)
    ensures RecoverableAdmins(At(log, db, i), t) != {}
  {
    if i == 0 {
      assert log[..0] == [];
    } else {
      AdministratorUpTo(log, db, t, i - 1);
      ReplayStep(log, db, i - 1);
      assert log[i - 1] in log;
      EventKeepsAnAdmin(log[i - 1], At(log, db, i - 1), t);
    }
  }

  /** A system that starts with a recoverable administrator has one at every moment of a
      run, for any clock t not before its handlers, if and only if no login of the run
      locks the last one. */
  lemma AlwaysAnAdministrator(log: seq<Event>, db: Db, t: Time)
    requires RecoverableAdmins(db, t) != {} && forall e :: e in log ==> e.now <= t && HandsOutCodes(e)
    ensures (forall i :: 0 <= i <= |log| ==> RecoverableAdmins(At(log, db, i), t) != {}) <==>
            (forall i :: 0 <= i < |log| ==> !LocksLastAdmin(log[i], At(log, db, i), t))
  {
    if forall i :: 0 <= i < |log| ==> !LocksLastAdmin(log[i], At(log, db, i), t) {
      forall i | 0 <= i <= |log| ensures RecoverableAdmins(At(log, db, i), t) != {} {
        AdministratorUpTo(log, db, t, i);
      }
    } else {
      var i :| 0 <= i < |log| && LocksLastAdmin(log[i], At(log, db, i), t);
      ReplayStep(log, db, i);
      assert log[i] in log;
      EventKeepsAnAdmin(log[i], At(log, db, i), t);
      assert RecoverableAdmins(At(log, db, i + 1), t) == {};
    }
  }

  /** Why failed logins have to be left out: the fifth failure locks the only
      recoverable administrator. */
  lemma FailedLoginCanLockTheLastAdmin()
    ensures exists db: Db, e: Event ::
      e.Login? && RecoverableAdmins(db, e.now) != {} && RecoverableAdmins(Apply(e, db), e.now) == {}
  {
    var row := User(0, 1, ADMIN, 1, 1, ACTIVE, Some(0), 4, None, true, Some(0));
    var db := Db(map[7 := row], map[], map[], map[1 := RecoveryCode(7, None)], map[]);
    var e := Login(10, 7, false, 0, 0, 0);
    assert HasUnusedCode(db.codes, 7) by { assert 1 in db.codes; }
    assert 7 in RecoverableAdmins(db, e.now);
    RunOne(UpdateUser(7, LoginFailed(10)), db);
    assert Apply(e, db).users[7].status == LOCKED;
  }
}
