/** The theorems about runs, for every interleaving of concurrent transactions. */
module Interleavings {
  import opened AuthModel
  import opened Sessions
  import opened SessionRuns
  import opened Administrators
  import opened Transactions
  import opened Serializability

  ghost predicate LiveInOneFamily(db: Db, i: SessionId, j: SessionId) {
    && i in db.sessions && j in db.sessions && db.sessions[i].family == db.sessions[j].family
    && db.sessions[i].Live() && db.sessions[j].Live()
  }

  /** In every committed state a family is one chain and has at most one live session. */
  lemma CommittedFamilies(acts: seq<Action>, db: Db)
    requires Valid(db) && Legal(acts, db)
    ensures Valid(After(acts, db).db)
    ensures forall i, j :: LiveInOneFamily(After(acts, db).db, i, j) ==> i == j
  {
    EveryInterleavingIsSerial(acts, db);
    var d := After(acts, db).db;
    ReachableIsValid(After(acts, db).log, db);
    forall i, j | LiveInOneFamily(d, i, j)
      ensures i == j
    {
      OneLivePerFamily(d, i, j);
    }
  }

  /** No two clients are granted a rotation of the same refresh token. */
  lemma OneGrantPerToken(acts: seq<Action>, db: Db, i: nat, j: nat)
    requires Valid(db) && Legal(acts, db)
    requires var s := After(acts, db); i < j < |s.log| && j < |s.answers| && s.answers[i] && s.answers[j]
    ensures var s := After(acts, db); s.log[i].Refresh? && s.log[j].Refresh? && s.log[i].token != s.log[j].token
  {
    EveryInterleavingIsSerial(acts, db);
    var s := After(acts, db);
    if s.log[i].token == s.log[j].token {
      assert Succeeds(s.log, db, i, s.log[i].token);
      TokenSucceedsOnce(s.log, db, i, j, s.log[i].token);
    }
  }

  /** The committed and open transactions all present one live token. */
  ghost predicate Presents(e: Event, db: Db, id: SessionId, token: Hash) {
    e.Refresh? && e.token == token && Rotatable(db, id, e.at)
  }

  ghost predicate OnlyPresentations(acts: seq<Action>, db: Db, id: SessionId, token: Hash) {
    forall a :: a in acts ==> !a.Quick? && (a.Begin? ==> Presents(a.e, db, id, token))
  }

  lemma {:induction false} PresentationsLogged(acts: seq<Action>, db: Db, id: SessionId, token: Hash)
    requires Legal(acts, db) && OnlyPresentations(acts, db, id, token)
    ensures forall e :: e in After(acts, db).log ==> Presents(e, db, id, token)
    ensures forall t :: t in After(acts, db).txs ==> Presents(After(acts, db).txs[t].event, db, id, token)
  {
    if acts != [] {
      assert acts[|acts| - 1] in acts;
      assert forall a :: a in acts[..|acts| - 1] ==> a in acts;
      PresentationsLogged(acts[..|acts| - 1], db, id, token);
    }
  }

  /** However k refreshes presenting one live token interleave, the first to commit is
      granted, all others are refused, and the replacement it issued stays live. */
  lemma OneWinner(acts: seq<Action>, db: Db, id: SessionId, token: Hash)
    requires Valid(db) && Legal(acts, db) && HoldsToken(db, id, token)
    requires OnlyPresentations(acts, db, id, token) && After(acts, db).log != []
    ensures var s := After(acts, db);
      && |s.answers| == |s.log| && s.answers[0] && (forall i :: 0 < i < |s.answers| ==> !s.answers[i])
      && s.log[0].Refresh? && s.log[0].newId in s.db.sessions && s.db.sessions[s.log[0].newId].Live()
  {
    EveryInterleavingIsSerial(acts, db);
    PresentationsLogged(acts, db, id, token);
    var s := After(acts, db);
    assert SameLiveToken(s.log, db, id, token);
    ConcurrentRefreshes(s.log, db, id, token);
    assert Succeeds(s.log, db, 0, token);
    forall i | 0 < i < |s.answers| ensures !s.answers[i] {
      assert s.log[i] in s.log;
      assert !Succeeds(s.log, db, i, token);
    }
  }

  /** Once a reset or revocation has committed, every live session of that user was
      issued after it, whatever was in flight at the time. */
  lemma CommittedResetEndsSessions(acts: seq<Action>, db: Db, i: nat, u: UserId, id: SessionId)
    requires Valid(db) && Legal(acts, db) && i < |After(acts, db).log|
    requires EndsSessions(After(acts, db).log[i], At(After(acts, db).log, db, i), u)
    requires var d := After(acts, db).db; id in d.sessions && d.sessions[id].userId == u && d.sessions[id].Live()
    ensures id !in At(After(acts, db).log, db, i + 1).sessions && id in IdsDrawn(After(acts, db).log[i + 1..])
  {
    EveryInterleavingIsSerial(acts, db);
    ResetEndsOlderSessions(After(acts, db).log, db, i, u, id);
  }

  /** Concurrent demotions, disablings, deletions, MFA resets and unlocks cannot remove
      the last recoverable administrator between them: every committed state has one
      unless a login locks it. */
  lemma AdministratorSurvivesConcurrency(acts: seq<Action>, db: Db, t: Time)
    requires Valid(db) && Legal(acts, db) && RecoverableAdmins(db, t) != {}
    requires forall e :: e in After(acts, db).log ==> e.now <= t && HandsOutCodes(e)
    ensures var log := After(acts, db).log;
      (forall i :: 0 <= i <= |log| ==> RecoverableAdmins(At(log, db, i), t) != {}) <==>
      (forall i :: 0 <= i < |log| ==> !LocksLastAdmin(log[i], At(log, db, i), t))
    ensures After(acts, db).db == At(After(acts, db).log, db, |After(acts, db).log|)
  {
    var log := After(acts, db).log;
    EveryInterleavingIsSerial(acts, db);
    AlwaysAnAdministrator(log, db, t);
    assert log[..|log|] == log;
  }

  lemma CommitLeavesAdmin(s: Sys, db: Db, t: TxId)
    requires Inv(s, db) && Enabled(s, Commit(t)) && Guarded(s.txs[t].event)
    ensures s.txs[t].event.user in s.db.users
    ensures ConcernsAdmin(s.txs[t].event, s.db.users[s.txs[t].event.user]) ==>
      RecoverableAdmins(Step(s, Commit(t)).db, s.txs[t].event.now) != {}
  {
    assert TxOk(s, t, db);
    CommitIsApply(s.db, s.txs[t]);
    GuardedRollsBack(s.txs[t].event, s.db);
  }

  /** A guarded change to an administrator that reaches its commit leaves a recoverable
      administrator behind, whoever else committed since it counted them. */
  lemma GuardedCommitLeavesAdmin(acts: seq<Action>, db: Db, t: TxId)
    requires Valid(db) && Legal(acts, db) && Enabled(After(acts, db), Commit(t))
    requires Guarded(After(acts, db).txs[t].event)
    ensures var s := After(acts, db); s.txs[t].event.user in s.db.users
    ensures var s := After(acts, db);
      ConcernsAdmin(s.txs[t].event, s.db.users[s.txs[t].event.user]) ==>
        RecoverableAdmins(Step(s, Commit(t)).db, s.txs[t].event.now) != {}
  {
    EveryInterleavingIsSerial(acts, db);
    CommitLeavesAdmin(After(acts, db), db, t);
  }
}
