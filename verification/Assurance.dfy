/**
 Recent-MFA assurances.  A world is the database together with the assurance table and
 the access tokens the server has signed; a run mixes the handlers with challenges,
 recovery log-ins and token issue.
 */
module Assurance {
  import opened Basics
  import opened AuthModel
  import opened Sessions
  import opened AccessTokens
  import opened AuthHandlers

  type Jti = nat

  datatype Grant = Grant(userId: UserId, expiresAt: Time)

  datatype World = World(db: Db, assurances: map<Jti, Grant>, issued: set<Token>)

  /** The issuer and audience, the signing key's digest and the age limit. */
  datatype Server = Server(config: AccessTokens.Config, mac: Claims -> nat, maxAge: Time)

  datatype Step =
    | Handler(event: Event)
    | SignIn(now: Time, user: UserId, mfa: bool, jti: Jti)
    | Challenge(now: Time, token: Token, code: Hash, totpOk: bool, jti: Jti)
    | Recovery(now: Time, token: Token, code: Hash, jti: Jti)
    | CheckSetup(user: UserId, codeOk: bool, request: RequestId)

  function Seconds(now: Time): int {
    now / 1000
  }

  // ----- who is asking -----

  predicate IsUser(s: Server, w: World, token: Token, now: Time) {
    Authenticates(s.config, s.mac, w.db, token, Seconds(now))
  }

  /** An authenticated user whose role is administrator. */
  predicate IsAdmin(s: Server, w: World, token: Token, now: Time) {
    IsUser(s, w, token, now) && w.db.users[token.claims.sub].role == ADMIN
  }

  /** requireRecentAdmin lets the request through. */
  predicate Permitted(s: Server, w: World, token: Token, now: Time) {
    && IsAdmin(s, w, token, now)
    && (w.db.users[token.claims.sub].mfaRequired ==> token.claims.mfa)
    && token.claims.jti in w.assurances
    && w.assurances[token.claims.jti].userId == token.claims.sub
    && w.assurances[token.claims.jti].expiresAt > now
  }

  // ----- recovery codes -----

  predicate Live(db: Db, code: Hash) {
    code in db.codes && db.codes[code].usedAt.None?
  }

  predicate Consumable(db: Db, u: UserId, code: Hash) {
    Live(db, code) && db.codes[code].userId == u
  }

  function Consumed(db: Db, code: Hash, now: Time): Db
    requires code in db.codes
  {
    db.(codes := db.codes[code := db.codes[code].(usedAt := Some(now))])
  }

  // ----- steps -----

  function NewToken(s: Server, db: Db, u: UserId, jti: Jti, now: Time, mfa: bool): Token
    requires u in db.users
  {
    Issue(s.config, s.mac, u, db.users[u], jti, Seconds(now), mfa)
  }

  predicate ByTotp(w: World, step: Step)
    requires step.Challenge?
  {
    var u := step.token.claims.sub;
    step.totpOk && u in w.db.secrets && w.db.secrets[u].confirmed
  }

  /** The step uses up this recovery code. */
  predicate Spends(s: Server, w: World, step: Step, code: Hash) {
    match step
    case Challenge(now, token, given, _, _) =>
      given == code && IsAdmin(s, w, token, now) && !ByTotp(w, step) && Consumable(w.db, token.claims.sub, code)
    case Recovery(now, token, given, _) =>
      given == code && IsAdmin(s, w, token, now) && Consumable(w.db, token.claims.sub, code)
    case _ => false
  }

  /** The challenge succeeds and records an assurance. */
  predicate Grants(s: Server, w: World, step: Step) {
    && step.Challenge? && IsAdmin(s, w, step.token, step.now)
    && (ByTotp(w, step) || Spends(s, w, step, step.code))
    && step.jti !in w.assurances
  }

  function GrantedToken(s: Server, w: World, step: Step): Token
    requires Grants(s, w, step)
  {
    NewToken(s, w.db, step.token.claims.sub, step.jti, step.now, true)
  }

  /** Deleting a user deletes the user's assurances. */
  function Cascade(a: map<Jti, Grant>, db: Db): map<Jti, Grant> {
    map j | j in a && a[j].userId in db.users :: a[j]
  }

  ghost function After(s: Server, step: Step, w: World): World {
    match step
    case Handler(e) => var db := Apply(e, w.db); World(db, Cascade(w.assurances, db), w.issued)
    case SignIn(now, u, mfa, jti) =>
      if u in w.db.users then w.(issued := w.issued + {NewToken(s, w.db, u, jti, now, mfa)}) else w
    case Challenge(now, token, code, _, jti) =>
      var db := if Spends(s, w, step, code) then Consumed(w.db, code, now) else w.db;
      if Grants(s, w, step) then
        World(db, w.assurances[jti := Grant(token.claims.sub, now + s.maxAge)], w.issued + {GrantedToken(s, w, step)})
      else w.(db := db)
    case Recovery(now, token, code, jti) =>
      if Spends(s, w, step, code) then
        w.(db := Consumed(w.db, code, now), issued := w.issued + {NewToken(s, w.db, token.claims.sub, jti, now, true)})
      else w
    case CheckSetup(_, _, _) => w
  }

  // ----- the handlers -----

  class AssuranceDesk {
    const auth: AuthDatabase
    const server: Server
    var assurances: map<Jti, Grant>
    ghost var issued: set<Token>

    ghost function View(): World
      reads this, auth
    {
      World(auth.View(), assurances, issued)
    }

    constructor (auth: AuthDatabase, server: Server)
      ensures this.auth == auth && this.server == server
      ensures View() == World(auth.View(), map[], {})
    {
      this.auth, this.server, assurances, issued := auth, server, map[], {};
    }

    method RequireAdminRole(token: Token, now: Time) returns (admin: bool)
      ensures admin == IsAdmin(server, View(), token, now)
    {
      var claims := Verify(server.config, server.mac, token, now / 1000);
      if claims.None? || claims.value.sub !in auth.users {
        return false;
      }
      var user := auth.users[claims.value.sub];
      admin := user.status == ACTIVE && user.role == claims.value.role
               && user.securityVersion == claims.value.securityVersion && user.roleVersion == claims.value.roleVersion
               && user.role == ADMIN;
    }

    method RequireRecentAdmin(token: Token, now: Time) returns (permitted: bool)
      ensures permitted == Permitted(server, View(), token, now)
    {
      var admin := RequireAdminRole(token, now);
      if !admin || (auth.users[token.claims.sub].mfaRequired && !token.claims.mfa) {
        return false;
      }
      var jti := token.claims.jti;
      permitted := jti in assurances && assurances[jti].userId == token.claims.sub && assurances[jti].expiresAt > now;
    }

    method ConsumeRecoveryCode(u: UserId, code: Hash, now: Time) returns (used: bool)
      modifies auth`codes
      ensures used == Consumable(old(auth.View()), u, code)
      ensures auth.View() == if used then Consumed(old(auth.View()), code, now) else old(auth.View())
    {
      used := code in auth.codes && auth.codes[code].usedAt.None? && auth.codes[code].userId == u;
      if used {
        auth.codes := auth.codes[code := auth.codes[code].(usedAt := Some(now))];
      }
    }

    /** The challenge: a TOTP code, or else a recovery code, buys a token and an
        assurance under that token's identifier. */
    method ReauthChallenge(now: Time, token: Token, code: Hash, totpOk: bool, jti: Jti) returns (r: Option<Token>)
      modifies this, auth`codes
      ensures View() == After(server, Challenge(now, token, code, totpOk, jti), old(View()))
      ensures r.Some? <==> Grants(server, old(View()), Challenge(now, token, code, totpOk, jti))
      ensures r.Some? ==> r.value == GrantedToken(server, old(View()), Challenge(now, token, code, totpOk, jti))
    {
      var admin := RequireAdminRole(token, now);
      if !admin {
        return None;
      }
      var u := token.claims.sub;
      var totp := totpOk && u in auth.secrets && auth.secrets[u].confirmed;
      var recovery := false;
      if !totp {
        recovery := ConsumeRecoveryCode(u, code, now);
      }
      if (!totp && !recovery) || jti in assurances {
        return None;
      }
      var reply := Issue(server.config, server.mac, u, auth.users[u], jti, now / 1000, true);
      NewTokenVerifies(server, auth.View(), u, jti, now, true);
      var claims := Verify(server.config, server.mac, reply, now / 1000);
      issued := issued + {reply};
      assurances := assurances[claims.value.jti := Grant(u, now + server.maxAge)];
      r := Some(reply);
    }

    method RecoveryLogin(now: Time, token: Token, code: Hash, jti: Jti) returns (r: Option<Token>)
      modifies this, auth`codes
      ensures View() == After(server, Recovery(now, token, code, jti), old(View()))
      ensures r.Some? <==> Spends(server, old(View()), Recovery(now, token, code, jti), code)
    {
      var admin := RequireAdminRole(token, now);
      if !admin {
        return None;
      }
      var u := token.claims.sub;
      var used := ConsumeRecoveryCode(u, code, now);
      if !used {
        return None;
      }
      var reply := Issue(server.config, server.mac, u, auth.users[u], jti, now / 1000, true);
      issued := issued + {reply};
      r := Some(reply);
    }
  }

  /** A token verifies at the moment it is signed, so the check after signing never
      turns a passed challenge down. */
  lemma NewTokenVerifies(s: Server, db: Db, u: UserId, jti: Jti, now: Time, mfa: bool)
    requires u in db.users
    ensures Verify(s.config, s.mac, NewToken(s, db, u, jti, now, mfa), Seconds(now)) ==
      Some(NewToken(s, db, u, jti, now, mfa).claims)
  {}

  // ----- runs -----

  ghost function Replay(s: Server, log: seq<Step>, w: World): World {
    if log == [] then w else After(s, log[|log| - 1], Replay(s, log[..|log| - 1], w))
  }

  ghost function At(s: Server, log: seq<Step>, w: World, i: nat): World
    requires i <= |log|
  {
    Replay(s, log[..i], w)
  }

  function Jtis(w: World): set<Jti> {
    set t | t in w.issued :: t.claims.jti
  }

  /** Whoever can show the keyed digest of some claims holds a token the server issued. */
  ghost predicate Unforged(s: Server, w: World, token: Token) {
    token.signature == s.mac(token.claims) ==> token in w.issued
  }

  /** So the token of an authenticated request was issued: a changed claim or signature
      never authenticates. */
  lemma AuthenticatedWasIssued(s: Server, w: World, token: Token, now: Time)
    requires Unforged(s, w, token) && IsUser(s, w, token, now)
    ensures token in w.issued
  {
    AuthenticatesExactly(s.config, s.mac, w.db, token, Seconds(now));
  }

  /** A token with a signature that is not the digest of its claims permits nothing. */
  lemma ForgedIsRefused(s: Server, w: World, token: Token, now: Time)
    requires token.signature != s.mac(token.claims)
    ensures !IsUser(s, w, token, now) && !Permitted(s, w, token, now)
  {
    AuthenticatesExactly(s.config, s.mac, w.db, token, Seconds(now));
  }

  // ----- what a sign-in and a challenge are good for -----

  /** A sign-in of an active user issues a token that authenticates for ten minutes, but
      permits no sensitive action. */
  lemma SignInAuthenticates(s: Server, w: World, step: Step, now: Time)
    requires step.SignIn? && step.user in w.db.users && w.db.users[step.user].status == ACTIVE
    requires step.now <= now && now / 1000 < step.now / 1000 + 600 && step.jti !in w.assurances
    ensures var reply := NewToken(s, w.db, step.user, step.jti, step.now, step.mfa);
      && After(s, step, w).issued == w.issued + {reply}
      && IsUser(s, After(s, step, w), reply, now) && !Permitted(s, After(s, step, w), reply, now)
  {
    var reply := NewToken(s, w.db, step.user, step.jti, step.now, step.mfa);
    AuthenticatesExactly(s.config, s.mac, w.db, reply, Seconds(now));
  }

  /** A passed challenge issues a token that permits sensitive actions until the assurance
      or the token expires, whichever is first. */
  lemma ChallengePermits(s: Server, w: World, step: Step, now: Time)
    requires Grants(s, w, step) && step.now <= now
    ensures var reply := GrantedToken(s, w, step);
      && reply in After(s, step, w).issued
      && (Permitted(s, After(s, step, w), reply, now) <==>
            now < step.now + s.maxAge && now / 1000 < step.now / 1000 + 600)
  {
    var reply, after := GrantedToken(s, w, step), After(s, step, w);
    AuthenticatesExactly(s.config, s.mac, w.db, step.token, Seconds(step.now));
    AuthenticatesExactly(s.config, s.mac, after.db, reply, Seconds(now));
  }

  /** Names and identifiers are drawn fresh. */
  ghost predicate Legal(s: Server, step: Step, w: World) {
    match step
    case Handler(e) => FreshFor(e, NamesIn(w.db))
    case CheckSetup(_, _, _) => true
    case _ => step.jti !in Jtis(w)
  }

  ghost predicate LegalRun(s: Server, log: seq<Step>, w: World) {
    log != [] ==>
      LegalRun(s, log[..|log| - 1], w) && Legal(s, log[|log| - 1], Replay(s, log[..|log| - 1], w))
  }

  ghost predicate UniqueJtis(w: World) {
    forall a, b :: a in w.issued && b in w.issued && a.claims.jti == b.claims.jti ==> a == b
  }

  lemma StepKeepsJtis(s: Server, step: Step, w: World)
    requires Legal(s, step, w) && UniqueJtis(w)
    ensures UniqueJtis(After(s, step, w))
  {
    assert forall t :: t in w.issued ==> t.claims.jti in Jtis(w);
  }

  lemma {:induction false} JtisStayUnique(s: Server, log: seq<Step>, w: World)
    requires LegalRun(s, log, w) && UniqueJtis(w)
    ensures UniqueJtis(Replay(s, log, w))
  {
    if log != [] {
      JtisStayUnique(s, log[..|log| - 1], w);
      StepKeepsJtis(s, log[|log| - 1], Replay(s, log[..|log| - 1], w));
    }
  }

  /** A security-relevant change of user u between step i and the end of the run. */
  ghost predicate ChangedSince(s: Server, log: seq<Step>, w: World, i: nat, u: UserId)
    requires i <= |log|
  {
    exists k :: i <= k < |log| && log[k].Handler? && SecurityChange(log[k].event, At(s, log, w, k).db, u)
  }

  ghost predicate GrantedAt(s: Server, log: seq<Step>, w: World, i: nat, jti: Jti) {
    i < |log| && Grants(s, At(s, log, w, i), log[i]) && log[i].jti == jti
  }

  /** What an assurance in the table says about the step that recorded it. */
  ghost predicate Traces(s: Server, log: seq<Step>, w: World, i: nat, jti: Jti) {
    var now := Replay(s, log, w);
    && GrantedAt(s, log, w, i, jti) && jti in now.assurances
    && var u := log[i].token.claims.sub;
    && now.assurances[jti] == Grant(u, log[i].now + s.maxAge)
    && GrantedToken(s, At(s, log, w, i), log[i]) in now.issued
    && u in now.db.users
    && now.db.users[u].securityVersion
       >= At(s, log, w, i).db.users[u].securityVersion + (if ChangedSince(s, log, w, i, u) then 1 else 0)
  }

  ghost predicate Changes(step: Step, w: World, u: UserId) {
    step.Handler? && SecurityChange(step.event, w.db, u)
  }

  lemma ChangedSplits(s: Server, log: seq<Step>, w: World, i: nat, u: UserId)
    requires i < |log|
    ensures ChangedSince(s, log, w, i, u) ==>
      ChangedSince(s, log[..|log| - 1], w, i, u) || Changes(log[|log| - 1], Replay(s, log[..|log| - 1], w), u)
  {
    var init := log[..|log| - 1];
    if ChangedSince(s, log, w, i, u) {
      var k :| i <= k < |log| && log[k].Handler? && SecurityChange(log[k].event, At(s, log, w, k).db, u);
      if k < |init| {
        assert init[..k] == log[..k] && init[k] == log[k];
      } else {
        assert log[..k] == init;
      }
    }
  }

  /** An assurance keeps its row for as long as it stays in the table. */
  lemma StepKeepsGrant(s: Server, step: Step, w: World, jti: Jti)
    requires Legal(s, step, w) && jti in w.assurances && jti in After(s, step, w).assurances
    requires w.assurances[jti].userId in w.db.users
    ensures After(s, step, w).assurances[jti] == w.assurances[jti] && w.issued <= After(s, step, w).issued
    ensures var u := w.assurances[jti].userId;
      && u in After(s, step, w).db.users
      && After(s, step, w).db.users[u].securityVersion
         >= w.db.users[u].securityVersion + (if Changes(step, w, u) then 1 else 0)
  {
    var u := w.assurances[jti].userId;
    if step.Handler? {
      VersionStep(step.event, w.db, u);
    }
  }

  lemma NewGrant(s: Server, step: Step, w: World, jti: Jti)
    requires jti !in w.assurances && jti in After(s, step, w).assurances
    ensures Grants(s, w, step) && step.jti == jti
    ensures After(s, step, w).db.users == w.db.users
    ensures After(s, step, w).assurances[jti] == Grant(step.token.claims.sub, step.now + s.maxAge)
    ensures GrantedToken(s, w, step) in After(s, step, w).issued
  {}

  lemma TraceExtends(s: Server, log: seq<Step>, w: World, i: nat, jti: Jti)
    requires log != [] && Legal(s, log[|log| - 1], Replay(s, log[..|log| - 1], w))
    requires Traces(s, log[..|log| - 1], w, i, jti) && jti in Replay(s, log, w).assurances
    ensures Traces(s, log, w, i, jti)
  {
    var init, step := log[..|log| - 1], log[|log| - 1];
    var before := Replay(s, init, w);
    assert Replay(s, log, w) == After(s, step, before);
    assert At(s, init, w, i) == At(s, log, w, i) by {
      assert init[..i] == log[..i];
    }
    assert init[i] == log[i];
    StepKeepsGrant(s, step, before, jti);
    ChangedSplits(s, log, w, i, log[i].token.claims.sub);
  }

  lemma TraceStarts(s: Server, log: seq<Step>, w: World, jti: Jti)
    requires log != [] && jti !in Replay(s, log[..|log| - 1], w).assurances && jti in Replay(s, log, w).assurances
    ensures Traces(s, log, w, |log| - 1, jti)
  {
    var init, step := log[..|log| - 1], log[|log| - 1];
    NewGrant(s, step, Replay(s, init, w), jti);
    assert At(s, log, w, |log| - 1) == Replay(s, init, w);
    ChangedSplits(s, log, w, |log| - 1, step.token.claims.sub);
  }

  lemma {:induction false} AssuranceHasChallenge(s: Server, log: seq<Step>, w: World, jti: Jti) returns (i: nat)
    requires LegalRun(s, log, w) && w.assurances == map[] && jti in Replay(s, log, w).assurances
    ensures Traces(s, log, w, i, jti)
  {
    var init := log[..|log| - 1];
    if jti in Replay(s, init, w).assurances {
      i := AssuranceHasChallenge(s, init, w, jti);
      TraceExtends(s, log, w, i, jti);
    } else {
      i := |log| - 1;
      TraceStarts(s, log, w, jti);
    }
  }

  /** Every permitted sensitive action was preceded by a challenge that the same user
      passed and whose token is the one now shown, less than the age limit ago; and
      since that challenge no role change, administrative status change, MFA reset or
      password reset of that user was committed. */
  lemma PermittedAfterChallenge(s: Server, log: seq<Step>, w: World, token: Token, now: Time) returns (i: nat)
    requires LegalRun(s, log, w) && w.assurances == map[] && UniqueJtis(w)
    requires Unforged(s, Replay(s, log, w), token) && Permitted(s, Replay(s, log, w), token, now)
    ensures GrantedAt(s, log, w, i, token.claims.jti)
    ensures log[i].token.claims.sub == token.claims.sub && now < log[i].now + s.maxAge
    ensures token == GrantedToken(s, At(s, log, w, i), log[i])
    ensures !ChangedSince(s, log, w, i, token.claims.sub)
  {
    AuthenticatedWasIssued(s, Replay(s, log, w), token, now);
    i := AssuranceHasChallenge(s, log, w, token.claims.jti);
    JtisStayUnique(s, log, w);
  }

  // ----- each recovery code is used once -----

  predicate Enrols(st: Stmt, code: Hash) {
    st.EnrolMfa? && code in st.hashes
  }

  lemma {:induction false} ProgramKeepsDead(p: seq<Stmt>, db: Db, code: Hash)
    requires Run(p, db).Some? && !Live(db, code) && forall st :: st in p ==> !Enrols(st, code)
    ensures !Live(Run(p, db).value, code)
  {
    if p != [] {
      assert p[0] in p;
      assert forall st :: st in p[1..] ==> st in p;
      ProgramKeepsDead(p[1..], Do(p[0], db), code);
    }
  }

  /** The step hands out this recovery code. */
  predicate HandsOut(step: Step, code: Hash) {
    step.Handler? && step.event.ConfirmMfa? && code in step.event.newCodes
  }

  lemma StepKeepsDead(s: Server, step: Step, w: World, code: Hash)
    requires !Live(w.db, code) && !HandsOut(step, code)
    ensures !Live(After(s, step, w).db, code)
  {
    if step.Handler? && Commits(step.event, w.db) {
      var e := step.event;
      if e.AdminPatch? && e.user in w.db.users {
        assert forall st :: st in PatchProgram(e, w.db.users[e.user]) ==> !Enrols(st, code);
      }
      ProgramKeepsDead(Program(e, w.db), w.db, code);
    }
  }

  lemma {:induction false} DeadStays(s: Server, log: seq<Step>, w: World, i: nat, code: Hash)
    requires i <= |log| && !Live(At(s, log, w, i).db, code)
    requires forall k :: i <= k < |log| ==> !HandsOut(log[k], code)
    ensures !Live(Replay(s, log, w).db, code)
  {
    if i == |log| {
      assert log[..i] == log;
    } else {
      var init := log[..|log| - 1];
      assert init[..i] == log[..i];
      DeadStays(s, init, w, i, code);
      StepKeepsDead(s, log[|log| - 1], Replay(s, init, w), code);
    }
  }

  /** Each recovery code authorises at most one step of a run, whether a challenge or a
      recovery log-in, as long as the same code is not handed out again. */
  lemma CodeAuthorisesOnce(s: Server, log: seq<Step>, w: World, i: nat, j: nat, code: Hash)
    requires i < j < |log| && Spends(s, At(s, log, w, i), log[i], code)
    requires forall k :: i < k < j ==> !HandsOut(log[k], code)
    ensures !Spends(s, At(s, log, w, j), log[j], code)
  {
    var before := log[..j];
    assert log[..i + 1][..i] == log[..i];
    assert before[..i + 1] == log[..i + 1];
    assert !Live(At(s, log, w, i + 1).db, code);
    DeadStays(s, before, w, i + 1, code);
  }
}
