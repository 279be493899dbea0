/** Failed logins, lockout, and what ends it. */
module Lockout {
  import opened AuthModel
  import opened Sessions
  import opened SessionRuns
  import opened UserRows

  predicate CountMatchesLock(u: User) {
    u.failedLoginCount >= FAILURE_LIMIT <==> u.lockedUntil.Some?
  }

  ghost predicate AllCountsMatch(db: Db) {
    forall u :: u in db.users ==> CountMatchesLock(db.users[u])
  }

  /** New accounts start unlocked with no failures. */
  ghost predicate FreshAccounts(log: seq<Event>) {
    forall e :: e in log && e.CreateUser? ==> e.row.failedLoginCount == 0 && e.row.lockedUntil.None?
  }

  lemma StepKeepsCounts(e: Event, db: Db)
    requires FreshFor(e, NamesIn(db)) && AllCountsMatch(db)
    requires e.CreateUser? ==> e.row.failedLoginCount == 0 && e.row.lockedUntil.None?
    ensures AllCountsMatch(Apply(e, db))
  {
    var d := Apply(e, db);
    AppliedNames(e, db);
    forall u | u in d.users
      ensures CountMatchesLock(d.users[u])
    {
      if u in db.users {
        RowAfter(e, db, u);
      } else {
        RunOne(Program(e, db)[0], db);
      }
    }
  }

  /** In every reachable state five or more failures and a lock time go together. */
  lemma {:induction false} CountsMatchAlways(log: seq<Event>, db: Db)
    requires FreshRun(log, db) && FreshAccounts(log) && AllCountsMatch(db)
    ensures AllCountsMatch(Replay(log, db))
  {
    if log != [] {
      var init := log[..|log| - 1];
      assert forall e :: e in init ==> e in log;
      CountsMatchAlways(init, db);
      StaysFresh(log, db);
      assert log[|log| - 1] in log;
      StepKeepsCounts(log[|log| - 1], Replay(init, db));
    }
  }

  ghost predicate FailedLogin(e: Event, db: Db, u: UserId) {
    e.Login? && e.user == u && u in db.users && !LoginAccepted(db, e)
  }

  /** The handlers that may clear the failure count or change the status of user u. */
  ghost predicate Intervenes(e: Event, db: Db, u: UserId) {
    || (e.ResetPassword? && ResetUsable(db, e.resetToken, e.now) && db.resets[e.resetToken].userId == u)
    || (e.Login? && e.user == u && LoginAccepted(db, e))
    || ((e.AdminPatch? || e.AdminDelete? || e.AdminUnlock?) && e.user == u)
  }

  ghost function Failures(log: seq<Event>, db: Db, u: UserId): nat {
    if log == [] then 0
    else
      var init := log[..|log| - 1];
      Failures(init, db, u) + if FailedLogin(log[|log| - 1], Replay(init, db), u) then 1 else 0
  }

  lemma FailedLoginCommits(e: Event, db: Db, u: UserId)
    requires FailedLogin(e, db, u)
    ensures Commits(e, db)
  {
    RunOne(UpdateUser(u, LoginFailed(e.now)), db);
  }

  lemma StepWithoutIntervention(e: Event, db: Db, u: UserId)
    requires u in db.users && FreshFor(e, NamesIn(db)) && !Intervenes(e, db, u)
    ensures u in Apply(e, db).users
    ensures Apply(e, db).users[u].failedLoginCount
         == db.users[u].failedLoginCount + (if FailedLogin(e, db, u) then 1 else 0)
    ensures FailedLogin(e, db, u) && Apply(e, db).users[u].failedLoginCount >= FAILURE_LIMIT ==>
      Apply(e, db).users[u].status == LOCKED && Apply(e, db).users[u].lockedUntil.Some?
    ensures !FailedLogin(e, db, u) && db.users[u].status == LOCKED ==> Apply(e, db).users[u].status == LOCKED
    ensures !FailedLogin(e, db, u) ==> Apply(e, db).users[u].lockedUntil == db.users[u].lockedUntil
  {
    RowAfter(e, db, u);
    if FailedLogin(e, db, u) {
      FailedLoginCommits(e, db, u);
    }
  }

  /** Without intervention the count is exact, and five failures in a row lock the
      account whatever its status was. */
  lemma {:induction false} FiveFailuresLock(log: seq<Event>, db: Db, u: UserId)
    requires FreshRun(log, db) && u in db.users
    requires forall k :: 0 <= k < |log| ==> !Intervenes(log[k], At(log, db, k), u)
    ensures u in Replay(log, db).users
    ensures Replay(log, db).users[u].failedLoginCount == db.users[u].failedLoginCount + Failures(log, db, u)
    ensures Failures(log, db, u) > 0 && Replay(log, db).users[u].failedLoginCount >= FAILURE_LIMIT ==>
      Replay(log, db).users[u].status == LOCKED && Replay(log, db).users[u].lockedUntil.Some?
  {
    if log != [] {
      var init, e := log[..|log| - 1], log[|log| - 1];
      forall k | 0 <= k < |init| ensures !Intervenes(init[k], At(init, db, k), u) {
        assert init[..k] == log[..k];
        assert !Intervenes(log[k], At(log, db, k), u);
      }
      FiveFailuresLock(init, db, u);
      assert !Intervenes(log[|log| - 1], At(log, db, |log| - 1), u);
      StaysFresh(log, db);
      StepWithoutIntervention(e, Replay(init, db), u);
    }
  }

  /** An unlock, a change to another status or a deletion that commits. */
  ghost predicate EndsLock(e: Event, db: Db, u: UserId) {
    && (e.AdminUnlock? || e.AdminDelete? || (e.AdminPatch? && e.status.Some? && e.status.value != LOCKED))
    && e.user == u && Commits(e, db)
  }

  ghost predicate Locked(db: Db, u: UserId) {
    u in db.users && db.users[u].status == LOCKED
  }

  /** A handler ends a lock if and only if it is one of those. */
  lemma LockEndsExactly(e: Event, db: Db, u: UserId)
    requires FreshFor(e, NamesIn(db)) && Locked(db, u)
    ensures Locked(Apply(e, db), u) <==> !EndsLock(e, db, u)
  {
    RowAfter(e, db, u);
  }

  lemma {:induction false} LockedUpTo(log: seq<Event>, db: Db, u: UserId, i: nat)
    requires FreshRun(log, db) && Locked(db, u) && i <= |log|
    requires forall k :: 0 <= k < i ==> !EndsLock(log[k], At(log, db, k), u)
    ensures Locked(At(log, db, i), u)
  {
    if i == 0 {
      assert log[..0] == [];
    } else {
      LockedUpTo(log, db, u, i - 1);
      LockEndsAt(log, db, u, i - 1);
    }
  }

  /** A locked account stays locked throughout a run, however much time passes and even
      after a password reset, if and only if no administrator commits an unlock, another
      status or the deletion. */
  lemma LockedUntilAdminActs(log: seq<Event>, db: Db, u: UserId)
    requires FreshRun(log, db) && Locked(db, u)
    ensures (forall i :: 0 <= i <= |log| ==> Locked(At(log, db, i), u)) <==>
            (forall i :: 0 <= i < |log| ==> !EndsLock(log[i], At(log, db, i), u))
  {
    if forall i :: 0 <= i < |log| ==> !EndsLock(log[i], At(log, db, i), u) {
      forall i | 0 <= i <= |log| ensures Locked(At(log, db, i), u) {
        LockedUpTo(log, db, u, i);
      }
    }
    if forall i :: 0 <= i <= |log| ==> Locked(At(log, db, i), u) {
      forall i | 0 <= i < |log| ensures !EndsLock(log[i], At(log, db, i), u) {
        LockEndsAt(log, db, u, i);
      }
    }
  }

  lemma LockEndsAt(log: seq<Event>, db: Db, u: UserId, i: nat)
    requires FreshRun(log, db) && i < |log| && Locked(At(log, db, i), u)
    ensures Locked(At(log, db, i + 1), u) <==> !EndsLock(log[i], At(log, db, i), u)
  {
    FreshAt(log, db, i);
    ReplayStep(log, db, i);
    LockEndsExactly(log[i], At(log, db, i), u);
  }

  /** And nobody logs in to a locked account. */
  lemma NoLoginWhileLocked(db: Db, e: Event)
    requires e.Login? && Locked(db, e.user)
    ensures !LoginAccepted(db, e) && Apply(e, db).sessions == db.sessions && Locked(Apply(e, db), e.user)
  {
    RunOne(UpdateUser(e.user, LoginFailed(e.now)), db);
  }
}
