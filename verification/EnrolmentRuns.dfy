/**
 From a sensitive action back to the enrolment of the administrator who took it, and to
 the code shown for it.
 */
module EnrolmentRuns {
  import AuthModel
  import opened AccessTokens
  import opened Assurance
  import opened MfaEnrolment
  import opened EnrolmentTraces

  type UserId = AuthModel.UserId

  // ----- one step -----

  /** The user shows a right code for the secret that waits for one. */
  predicate Shows(step: Step, w: World, u: UserId) {
    step.CheckSetup? && step.user == u && step.codeOk && SetupOpen(w.db, u)
  }

  ghost function MarkOf(step: Step, w: World, u: UserId): Mark {
    if Shows(step, w, u) then Showed(step.request)
    else if !step.Handler? then Rest
    else if Confirms(step.event, w.db, u) then Enrolled(step.event.request, set h | h in step.event.newCodes)
    else if Clears(step.event, w.db, u) then Cleared
    else if Restarts(step.event, w.db, u) then Started(step.event.secret)
    else Rest
  }

  function StandingOf(w: World, u: UserId): Standing {
    Standing(SecretOf(w.db, u), Confirmed(w.db, u), UnusedCodes(w.db.codes, u))
  }

  lemma MarkFollows(s: Server, step: Step, w: World, u: UserId)
    ensures Follows(StandingOf(w, u), MarkOf(step, w, u), StandingOf(After(s, step, w), u))
  {
    if step.Handler? {
      EnrolmentStep(step.event, w.db, u);
    }
  }

  // ----- runs -----

  /** What a run is to user u. */
  ghost function TraceOf(s: Server, log: seq<Step>, w: World, u: UserId): Trace {
    Trace(seq(|log|, k requires 0 <= k < |log| => MarkOf(log[k], At(s, log, w, k), u)),
          seq(|log| + 1, k requires 0 <= k <= |log| => StandingOf(At(s, log, w, k), u)))
  }

  lemma WorldStep(s: Server, log: seq<Step>, w: World, n: nat)
    requires n < |log|
    ensures At(s, log, w, n + 1) == After(s, log[n], At(s, log, w, n))
  {
    assert log[..n + 1][..n] == log[..n];
  }

  lemma TraceIsTrace(s: Server, log: seq<Step>, w: World, u: UserId)
    ensures IsTrace(TraceOf(s, log, w, u)) && TraceOf(s, log, w, u).standing[0] == StandingOf(w, u)
  {
    var t := TraceOf(s, log, w, u);
    forall k | 0 <= k < |log| ensures Follows(t.standing[k], t.marks[k], t.standing[k + 1]) {
      WorldStep(s, log, w, k);
      MarkFollows(s, log[k], At(s, log, w, k), u);
    }
    assert log[..0] == [];
  }

  /** Nobody starts out with MFA. */
  predicate Unenrolled(w: World) {
    w.db.codes == map[] && w.db.secrets == map[]
  }

  /** Secrets are drawn fresh, and no confirmation runs without its check. */
  ghost predicate Regular(s: Server, log: seq<Step>, w: World) {
    forall u :: FreshSecrets(TraceOf(s, log, w, u)) && CheckedFirst(TraceOf(s, log, w, u))
  }

  // ----- from a permitted action back to the enrolment -----

  /** A challenge passes only after its user enrolled, which took a right code for the
      secret of then: with a TOTP code while the confirmed secret stands, and that is one
      a code was shown for unless the set-up was started again before the confirmation;
      or else with a recovery code that enrolment handed out. */
  lemma ChallengeAfterEnrolment(s: Server, log: seq<Step>, w: World, j: nat) returns (k: nat, i: nat)
    requires Unenrolled(w) && Regular(s, log, w) && j < |log| && Grants(s, At(s, log, w, j), log[j])
    ensures var t := TraceOf(s, log, w, log[j].token.claims.sub);
      && IsTrace(t) && LastEnrolment(t, i, j) && CheckOf(t, k, i)
      && if ByTotp(At(s, log, w, j), log[j])
         then Quiet(t, i, j) && (Shown(t, j) <==> exists c :: CheckStands(t, c, i))
         else log[j].code in t.marks[i].codes
  {
    var u := log[j].token.claims.sub;
    var t := TraceOf(s, log, w, u);
    TraceIsTrace(s, log, w, u);
    assert t.standing[j] == StandingOf(At(s, log, w, j), u);
    if ByTotp(At(s, log, w, j), log[j]) {
      i := ConfirmedSecretShownExactly(t, j);
    } else {
      i := CodeFromLastEnrolment(t, log[j].code, j);
    }
    assert CheckedFirst(t);
    k :| CheckOf(t, k, i);
  }

  /** Every permitted sensitive action goes back, through a challenge for the very token
      shown, to an enrolment of the same administrator that stood when the challenge
      was passed, and to the code checked for it. */
  lemma PermittedAfterEnrolment(s: Server, log: seq<Step>, w: World, token: Token, now: AuthModel.Time)
    returns (k: nat, i: nat, j: nat)
    requires LegalRun(s, log, w) && Unenrolled(w) && Regular(s, log, w) && w.assurances == map[] && UniqueJtis(w)
    requires Unforged(s, Replay(s, log, w), token) && Permitted(s, Replay(s, log, w), token, now)
    ensures k < i < j && GrantedAt(s, log, w, j, token.claims.jti) && now < log[j].now + s.maxAge
    ensures !ChangedSince(s, log, w, j, token.claims.sub)
    ensures var t := TraceOf(s, log, w, token.claims.sub);
      IsTrace(t) && LastEnrolment(t, i, j) && CheckOf(t, k, i)
  {
    j := PermittedAfterChallenge(s, log, w, token, now);
    k, i := ChallengeAfterEnrolment(s, log, w, j);
  }

  // ----- a set-up started again in between -----

  function RestartedRun(u: UserId, now: AuthModel.Time, codes: seq<AuthModel.Hash>): seq<Step> {
    [Handler(AuthModel.BeginMfa(now, u, 1)), CheckSetup(u, true, 7), Handler(AuthModel.BeginMfa(now, u, 2)),
     Handler(AuthModel.ConfirmMfa(now, u, codes, 7))]
  }

  lemma RestartedMarks(s: Server, w: World, u: UserId, now: AuthModel.Time, codes: seq<AuthModel.Hash>)
    requires u in w.db.users && Storable(codes, w.db, u)
    ensures TraceOf(s, RestartedRun(u, now, codes), w, u).marks
         == [Started(1), Showed(7), Started(2), Enrolled(7, set h | h in codes)]
  {
    var log := RestartedRun(u, now, codes);
    assert log[..0] == [];
    WorldStep(s, log, w, 0);
    WorldStep(s, log, w, 1);
    WorldStep(s, log, w, 2);
    RestartEffect(now, u, 1, w.db);
    RestartEffect(now, u, 2, At(s, log, w, 2).db);
  }

  /** A set-up started again between the check and the transaction: the secret that ends
      up confirmed is one nobody has shown a code for. */
  lemma RestartBeforeConfirmation(s: Server, w: World, u: UserId, now: AuthModel.Time, codes: seq<AuthModel.Hash>)
    requires u in w.db.users && Storable(codes, w.db, u)
    ensures var t := TraceOf(s, RestartedRun(u, now, codes), w, u);
      IsTrace(t) && FreshSecrets(t) && CheckedFirst(t) && t.standing[4].confirmed && !Shown(t, 4)
  {
    TraceIsTrace(s, RestartedRun(u, now, codes), w, u);
    RestartedMarks(s, w, u, now, codes);
    RestartedUnshown(TraceOf(s, RestartedRun(u, now, codes), w, u), set h | h in codes);
  }

  lemma RestartEffect(now: AuthModel.Time, u: UserId, secret: AuthModel.SecretId, db: AuthModel.Db)
    requires u in db.users
    ensures AuthModel.Apply(AuthModel.BeginMfa(now, u, secret), db) ==
      db.(secrets := db.secrets[u := AuthModel.Secret(secret, false)])
  {
    AuthModel.RunOne(AuthModel.OfferMfa(u, secret), db);
  }
}
