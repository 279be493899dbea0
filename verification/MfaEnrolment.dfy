/**
 Setting up MFA: a secret counts only once its owner has shown a code for it, and the
 recovery codes that work are those of the last confirmation.
 */
module MfaEnrolment {
  import opened Basics
  import opened AuthModel
  import opened Administrators

  /** The user has a secret that waits for its first code. */
  predicate SetupOpen(db: Db, u: UserId) {
    u in db.secrets && !db.secrets[u].confirmed
  }

  /** The new codes can be stored: no two are equal and nobody else has one of them. */
  ghost predicate Storable(hashes: seq<Hash>, db: Db, u: UserId) {
    AllDiffer(hashes) && forall h :: h in hashes ==> h !in CodesNotOf(db.codes, u)
  }

  /** A confirmation of user u that goes through. */
  ghost predicate Confirms(e: Event, db: Db, u: UserId) {
    e.ConfirmMfa? && e.user == u && u in db.users && Storable(e.newCodes, db, u)
  }

  /** A confirmation replaces all of the user's codes, marks the user row and confirms
      whatever secret there is, or does nothing. */
  lemma ConfirmEffect(e: Event, db: Db)
    requires e.ConfirmMfa?
    ensures Apply(e, db) ==
      if Confirms(e, db, e.user) then
        db.(users := db.users[e.user := db.users[e.user].(mfaRequired := true, mfaEnrolledAt := Some(e.now))],
            codes := CodesNotOf(db.codes, e.user) + NewCodes(e.user, e.newCodes),
            secrets := if e.user !in db.secrets then db.secrets
                       else db.secrets[e.user := db.secrets[e.user].(confirmed := true)])
      else db
  {
    if e.user in db.users {
      RunTwo(EnrolMfa(e.user, e.newCodes), UpdateUser(e.user, MfaConfirmed(e.now)), db);
    }
  }

  function UnusedCodes(codes: map<Hash, RecoveryCode>, u: UserId): set<Hash> {
    set h | h in codes && codes[h].userId == u && codes[h].usedAt.None?
  }

  /** The user's secret is confirmed, so that TOTP codes are looked at. */
  predicate Confirmed(db: Db, u: UserId) {
    u in db.secrets && db.secrets[u].confirmed
  }

  function SecretOf(db: Db, u: UserId): Option<SecretId> {
    if u in db.secrets then Some(db.secrets[u].id) else None
  }

  /** An administrator resets the user's MFA or deletes the user. */
  ghost predicate Clears(e: Event, db: Db, u: UserId) {
    (e.AdminResetMfa? || e.AdminDelete?) && e.user == u && u in db.users && Commits(e, db)
  }

  predicate Restarts(e: Event, db: Db, u: UserId) {
    e.BeginMfa? && e.user == u && u in db.users
  }

  predicate LeavesMfa(s: Stmt) {
    !s.DropUser? && !s.DropMfa? && !s.OfferMfa? && !s.EnrolMfa?
  }

  lemma {:induction false} RunLeavesMfa(p: seq<Stmt>, db: Db)
    requires Run(p, db).Some? && forall s :: s in p ==> LeavesMfa(s)
    ensures Run(p, db).value.codes == db.codes && Run(p, db).value.secrets == db.secrets
  {
    if p != [] {
      assert p[0] in p;
      assert forall s :: s in p[1..] ==> s in p;
      RunLeavesMfa(p[1..], Do(p[0], db));
    }
  }

  lemma OthersLeaveMfa(e: Event, db: Db)
    requires !e.ConfirmMfa? && !e.BeginMfa? && !e.AdminResetMfa? && !e.AdminDelete?
    ensures Apply(e, db).codes == db.codes && Apply(e, db).secrets == db.secrets
  {
    if Commits(e, db) {
      if e.AdminPatch? && e.user in db.users {
        assert forall s :: s in PatchProgram(e, db.users[e.user]) ==> LeavesMfa(s);
      }
      RunLeavesMfa(Program(e, db), db);
    }
  }

  lemma ClearingStep(e: Event, db: Db, u: UserId)
    requires (e.AdminResetMfa? || e.AdminDelete?) && e.user in db.users
    ensures UnusedCodes(Apply(e, db).codes, u) == if Clears(e, db, u) then {} else UnusedCodes(db.codes, u)
    ensures Confirmed(Apply(e, db), u) <==> Confirmed(db, u) && !Clears(e, db, u)
    ensures SecretOf(Apply(e, db), u) == if Clears(e, db, u) then None else SecretOf(db, u)
  {
    GuardedRollsBack(e, db);
    if Commits(e, db) {
      assert Apply(e, db).codes == CodesNotOf(db.codes, e.user);
      assert Apply(e, db).secrets == db.secrets - {e.user};
    }
  }

  lemma ConfirmingStep(e: Event, db: Db, u: UserId)
    requires e.ConfirmMfa?
    ensures UnusedCodes(Apply(e, db).codes, u) ==
      if Confirms(e, db, u) then set h | h in e.newCodes else UnusedCodes(db.codes, u)
    ensures Confirmed(Apply(e, db), u) <==> (Confirms(e, db, u) && u in db.secrets) || Confirmed(db, u)
    ensures SecretOf(Apply(e, db), u) == SecretOf(db, u)
  {
    ConfirmEffect(e, db);
    if Confirms(e, db, e.user) {
      forall h | h in UnusedCodes(db.codes, u) && u != e.user
        ensures h in UnusedCodes(Apply(e, db).codes, u)
      {
        assert h in CodesNotOf(db.codes, e.user);
      }
    }
  }

  /** The user's unused codes and confirmed secret after any handler: a confirmation
      sets them, a committed reset or deletion clears them, starting the set-up again
      withdraws the secret but not the codes, and nothing else touches them. */
  lemma EnrolmentStep(e: Event, db: Db, u: UserId)
    ensures UnusedCodes(Apply(e, db).codes, u) ==
      if Confirms(e, db, u) then set h | h in e.newCodes
      else if Clears(e, db, u) then {}
      else UnusedCodes(db.codes, u)
    ensures Confirmed(Apply(e, db), u) <==>
      (Confirms(e, db, u) && u in db.secrets) || (Confirmed(db, u) && !Clears(e, db, u) && !Restarts(e, db, u))
    ensures SecretOf(Apply(e, db), u) ==
      if Clears(e, db, u) then None else if Restarts(e, db, u) then Some(e.secret) else SecretOf(db, u)
  {
    if e.ConfirmMfa? {
      ConfirmingStep(e, db, u);
    } else if e.BeginMfa? {
      RunOne(OfferMfa(e.user, e.secret), db);
    } else if e.AdminResetMfa? || e.AdminDelete? {
      if e.user in db.users {
        ClearingStep(e, db, u);
      }
    } else {
      OthersLeaveMfa(e, db);
    }
  }

  /** Starting the set-up again turns the confirmed secret off at once, while the user
      still counts as enrolled and as a recoverable administrator. */
  lemma RestartSuspendsTotp(now: Time, u: UserId, secret: SecretId, db: Db, t: Time)
    requires u in db.users
    ensures !Confirmed(Apply(BeginMfa(now, u, secret), db), u)
    ensures Apply(BeginMfa(now, u, secret), db).users == db.users
    ensures RecoverableAdmins(Apply(BeginMfa(now, u, secret), db), t) == RecoverableAdmins(db, t)
  {
    RunOne(OfferMfa(u, secret), db);
  }
}
