/**
 Verified addresses.  Accounts are opened by sign-up, by redeeming an invitation or by
 the script that makes an administrator; a sign-up is verified only by a token sent to
 its address.
 */
module Verification {
  import opened Basics
  import opened AuthModel
  import opened TokenRequests
  import opened OneTimeTokens
  import Invitations

  const VERIFICATION_TTL: int := 24 * 60 * 60 * 1000

  type Account = Invitations.Account

  datatype Mail = Mail(registry: Invitations.Registry, tokens: map<Hash, OneTimeToken>)

  /** A request to resend retires the old tokens and then sends the new one, in two
      statements outside a transaction.  The check that the user is not verified comes
      before both, so a run may go on with either after the user has been verified. */
  datatype MailOp =
    | Membership(op: Invitations.Op)
    | Bootstrap(now: Time, user: UserId, email: string)
    | Retire(now: Time, user: UserId, request: RequestId)
    | Send(now: Time, user: UserId, hash: Hash, request: RequestId)
    | Verify(now: Time, hash: Hash)

  predicate Sends(op: MailOp, m: Mail, u: UserId) {
    op.Send? && op.user == u && u in m.registry.accounts && op.hash !in m.tokens
  }

  predicate Verifies(op: MailOp, m: Mail) {
    && op.Verify? && op.hash in m.tokens && m.tokens[op.hash].usedAt.None? && m.tokens[op.hash].expiresAt > op.now
    && m.tokens[op.hash].userId in m.registry.accounts
  }

  ghost predicate Boots(op: MailOp, m: Mail) {
    op.Bootstrap? && op.user !in m.registry.accounts && !Invitations.EmailTaken(m.registry, op.email)
  }

  function Verified(a: Account, now: Time): Account {
    a.(verifiedAt := Some(now), status := if a.status == PENDING_VERIFICATION then ACTIVE else a.status)
  }

  /** Deleting an account deletes its tokens. */
  function TokensOf(t: map<Hash, OneTimeToken>, accounts: map<UserId, Account>): map<Hash, OneTimeToken> {
    map h | h in t && t[h].userId in accounts :: t[h]
  }

  function WithAccount(m: Mail, u: UserId, a: Account): Mail {
    m.(registry := m.registry.(accounts := m.registry.accounts[u := a]))
  }

  ghost function MailAfter(op: MailOp, m: Mail): Mail {
    match op
    case Membership(change) =>
      var r := Invitations.After(change, m.registry);
      Mail(r, TokensOf(m.tokens, r.accounts))
    case Bootstrap(now, u, email) =>
      if Boots(op, m) then WithAccount(m, u, Invitations.Account(email, ADMIN, ACTIVE, Some(now), true)) else m
    case Retire(now, u, _) => m.(tokens := m.tokens + UnusedOf(m.tokens, u, now))
    case Send(now, u, h, _) =>
      if Sends(op, m, u) then m.(tokens := m.tokens[h := OneTimeToken(u, now + VERIFICATION_TTL, None)]) else m
    case Verify(now, h) =>
      if !Verifies(op, m) then m
      else
        var u := m.tokens[h].userId;
        WithAccount(m, u, Verified(m.registry.accounts[u],
          now)).(tokens := m.tokens[h := m.tokens[h].(usedAt := Some(now))])
  }

  // ----- the handlers -----

  class VerificationDesk {
    var registry: Invitations.Registry
    var tokens: map<Hash, OneTimeToken>

    ghost function View(): Mail
      reads this
    {
      Mail(registry, tokens)
    }

    constructor (registry: Invitations.Registry)
      ensures View() == Mail(registry, map[])
    {
      this.registry, tokens := registry, map[];
    }

    /** One request that nothing overtakes; a verified user gets no token. */
    method ResendVerification(now: Time, user: UserId, hash: Hash, request: RequestId) returns (sent: bool)
      requires user in registry.accounts
      modifies this`tokens
      ensures View() ==
        if registry.accounts[user].verifiedAt.Some? then old(View())
        else MailAfter(Send(now, user, hash, request), MailAfter(Retire(now, user, request), old(View())))
      ensures sent <==> registry.accounts[user].verifiedAt.None? && hash !in old(tokens)
    {
      if registry.accounts[user].verifiedAt.Some? {
        return false;
      }
      tokens := tokens + map h | h in tokens && tokens[h].userId == user && tokens[h].usedAt.None?
                              :: tokens[h].(usedAt := Some(now));
      if hash in tokens {
        return false;
      }
      tokens := tokens[hash := OneTimeToken(user, now + VERIFICATION_TTL, None)];
      sent := true;
    }

    method VerifyEmail(now: Time, hash: Hash) returns (ok: bool)
      modifies this
      ensures View() == MailAfter(Verify(now, hash), old(View()))
      ensures ok == Verifies(Verify(now, hash), old(View()))
    {
      if hash !in tokens || tokens[hash].usedAt.Some? || tokens[hash].expiresAt <= now
         || tokens[hash].userId !in registry.accounts {
        return false;
      }
      var user := tokens[hash].userId;
      tokens := tokens[hash := tokens[hash].(usedAt := Some(now))];
      var account := registry.accounts[user].(verifiedAt := Some(now));
      if account.status == PENDING_VERIFICATION {
        account := account.(status := ACTIVE);
      }
      registry := registry.(accounts := registry.accounts[user := account]);
      ok := true;
    }
  }

  // ----- runs -----

  ghost function MailRun(log: seq<MailOp>, m: Mail): Mail {
    if log == [] then m else MailAfter(log[|log| - 1], MailRun(log[..|log| - 1], m))
  }

  ghost function MailAt(log: seq<MailOp>, m: Mail, i: nat): Mail
    requires i <= |log|
  {
    MailRun(log[..i], m)
  }

  lemma MailStep(log: seq<MailOp>, m: Mail, i: nat)
    requires i < |log|
    ensures MailAt(log, m, i + 1) == MailAfter(log[i], MailAt(log, m, i))
  {
    assert log[..i + 1][..i] == log[..i];
  }

  // ----- one unused token -----

  function MailMark(op: MailOp, m: Mail, u: UserId): Mark {
    if op.Retire? && op.user == u then Retired(op.request)
    else if Sends(op, m, u) then Issued(op.request, op.hash)
    else Other
  }

  lemma MailMarkFollows(op: MailOp, m: Mail, u: UserId)
    ensures Follows(Unused(m.tokens, u), MailMark(op, m, u), Unused(MailAfter(op, m).tokens, u))
  {}

  ghost function MailTrace(log: seq<MailOp>, m: Mail, u: UserId): Trace {
    Trace(seq(|log|, k requires 0 <= k < |log| => MailMark(log[k], MailAt(log, m, k), u)),
          seq(|log| + 1, k requires 0 <= k <= |log| => Unused(MailAt(log, m, k).tokens, u)))
  }

  lemma MailTraceIsTrace(log: seq<MailOp>, m: Mail, u: UserId)
    ensures IsTrace(MailTrace(log, m, u)) && MailTrace(log, m, u).unused[0] == Unused(m.tokens, u)
  {
    var t := MailTrace(log, m, u);
    forall k | 0 <= k < |log| ensures Follows(t.unused[k], t.marks[k], t.unused[k + 1]) {
      MailStep(log, m, k);
      MailMarkFollows(log[k], MailAt(log, m, k), u);
    }
    assert log[..0] == [];
  }

  /** Between the two statements of the resend that ends at step k, another resend of
      the same user sent a token that is still unused. */
  ghost predicate OvertakenResend(log: seq<MailOp>, m: Mail, u: UserId, k: nat)
    requires k < |log|
  {
    MailTraceIsTrace(log, m, u);
    Overtaken(MailTrace(log, m, u), k)
  }

  /** Over any run a user has at most one unused verification token at every moment if
      and only if no resend of the user is overtaken by another. */
  lemma AtMostOneUnusedVerification(log: seq<MailOp>, m: Mail, u: UserId)
    requires RetiredFirst(MailTrace(log, m, u).marks) && AtMostOne(Unused(m.tokens, u))
    ensures (forall k :: 0 <= k <= |log| ==> AtMostOne(Unused(MailAt(log, m, k).tokens, u))) <==>
            (forall k :: 0 <= k < |log| ==> !OvertakenResend(log, m, u, k))
  {
    var t := MailTrace(log, m, u);
    MailTraceIsTrace(log, m, u);
    OneUnusedExactly(t);
    assert forall k :: 0 <= k <= |log| ==> t.unused[k] == Unused(MailAt(log, m, k).tokens, u);
    assert forall k :: 0 <= k < |log| ==> (OvertakenResend(log, m, u, k) <==> Overtaken(t, k));
  }

  // ----- each token verifies once -----

  lemma {:induction false} SpentMailStays(log: seq<MailOp>, m: Mail, i: nat, u: UserId, h: Hash)
    requires i <= |log| && h !in Unused(MailAt(log, m, i).tokens, u)
    requires forall k :: i <= k < |log| ==> !(log[k].Send? && log[k].hash == h)
    ensures h !in Unused(MailRun(log, m).tokens, u)
  {
    if i == |log| {
      assert log[..i] == log;
    } else {
      var init := log[..|log| - 1];
      assert init[..i] == log[..i];
      SpentMailStays(init, m, i, u, h);
      MailMarkFollows(log[|log| - 1], MailRun(init, m), u);
    }
  }

  /** Over any run a verification token verifies at most once. */
  lemma VerifiesOnce(log: seq<MailOp>, m: Mail, i: nat, j: nat, h: Hash)
    requires i < j < |log| && Verifies(log[i], MailAt(log, m, i)) && log[i].hash == h
    requires log[j].Verify? && log[j].hash == h
    requires forall k :: i < k < j ==> !(log[k].Send? && log[k].hash == h)
    ensures !Verifies(log[j], MailAt(log, m, j))
  {
    var before := log[..j];
    var end := MailRun(before, m);
    MailStep(log, m, i);
    forall u: UserId ensures h !in Unused(end.tokens, u) {
      assert before[..i + 1] == log[..i + 1];
      assert h !in Unused(MailAt(log, m, i + 1).tokens, u);
      SpentMailStays(before, m, i + 1, u, h);
    }
    if h in end.tokens {
      assert h !in Unused(end.tokens, end.tokens[h].userId);
    }
  }

  // ----- where verified addresses come from -----

  predicate IsVerified(m: Mail, u: UserId) {
    u in m.registry.accounts && m.registry.accounts[u].verifiedAt.Some?
  }

  /** Step i sent user u the token h. */
  ghost predicate SentAt(log: seq<MailOp>, m: Mail, i: nat, u: UserId, h: Hash) {
    i < |log| && Sends(log[i], MailAt(log, m, i), u) && log[i].hash == h
  }

  ghost predicate VerifiedAt(log: seq<MailOp>, m: Mail, j: nat, u: UserId) {
    && j < |log| && Verifies(log[j], MailAt(log, m, j))
    && MailAt(log, m, j).tokens[log[j].hash].userId == u
  }

  ghost predicate Redeeming(op: MailOp, m: Mail, u: UserId) {
    op.Membership? && op.op.Redeem? && op.op.newUser == u && exists id :: Invitations.Redeems(op.op, m.registry, id)
  }

  /** Step j redeemed an invitation that opened account u. */
  ghost predicate RedeemedAt(log: seq<MailOp>, m: Mail, j: nat, u: UserId) {
    j < |log| && Redeeming(log[j], MailAt(log, m, j), u)
  }

  /** Step j was the script that made administrator u. */
  ghost predicate BootedAt(log: seq<MailOp>, m: Mail, j: nat, u: UserId) {
    j < |log| && Boots(log[j], MailAt(log, m, j)) && log[j].user == u
  }

  /** Step j verified u. */
  ghost predicate BecameVerified(log: seq<MailOp>, m: Mail, j: nat, u: UserId) {
    VerifiedAt(log, m, j, u) || RedeemedAt(log, m, j, u) || BootedAt(log, m, j, u)
  }

  predicate Removes(op: MailOp, u: UserId) {
    op.Membership? && op.op.Remove? && op.op.user == u
  }

  lemma VerifiedAfter(op: MailOp, m: Mail, u: UserId)
    ensures IsVerified(MailAfter(op, m), u) <==>
      || (IsVerified(m, u) && !Removes(op, u))
      || (Verifies(op, m) && m.tokens[op.hash].userId == u) || Redeeming(op, m, u) || (Boots(op, m) && op.user == u)
  {}

  /** User u was verified at step j and is still there. */
  ghost predicate VerifiedSince(log: seq<MailOp>, m: Mail, j: nat, u: UserId) {
    BecameVerified(log, m, j, u) && forall k :: j < k < |log| ==> !Removes(log[k], u)
  }

  lemma VerifiedSinceAppend(log: seq<MailOp>, m: Mail, j: nat, u: UserId)
    requires log != [] && j < |log| - 1
    ensures VerifiedSince(log, m, j, u) <==> VerifiedSince(log[..|log| - 1], m, j, u) && !Removes(log[|log| - 1], u)
  {
    var init := log[..|log| - 1];
    assert init[..j] == log[..j] && init[j] == log[j];
    assert forall k :: 0 <= k < |init| ==> init[k] == log[k];
  }

  /** Over any run a user who starts unverified is verified if and only if a token, an
      invitation or the script verified the address and nobody deleted the user since. */
  lemma {:induction false} VerifiedExactly(log: seq<MailOp>, m: Mail, u: UserId)
    requires !IsVerified(m, u)
    ensures IsVerified(MailRun(log, m), u) <==> exists j: nat :: VerifiedSince(log, m, j, u)
  {
    if log != [] {
      var init := log[..|log| - 1];
      VerifiedExactly(init, m, u);
      VerifiedByLast(log, m, u);
      AnyVerifiedSince(log, m, u);
    }
  }

  lemma VerifiedByLast(log: seq<MailOp>, m: Mail, u: UserId)
    requires log != []
    ensures IsVerified(MailRun(log, m), u) <==>
      || (IsVerified(MailRun(log[..|log| - 1], m), u) && !Removes(log[|log| - 1], u))
      || BecameVerified(log, m, |log| - 1, u)
  {
    VerifiedAfter(log[|log| - 1], MailRun(log[..|log| - 1], m), u);
  }

  lemma AnyVerifiedSince(log: seq<MailOp>, m: Mail, u: UserId)
    requires log != []
    ensures var init := log[..|log| - 1];
      (exists j: nat :: VerifiedSince(log, m, j, u)) <==>
        || BecameVerified(log, m, |log| - 1, u)
        || ((exists j: nat :: VerifiedSince(init, m, j, u)) && !Removes(log[|log| - 1], u))
  {
    var init, last := log[..|log| - 1], |log| - 1;
    assert VerifiedSince(log, m, last, u) <==> BecameVerified(log, m, last, u);
    if j: nat :| VerifiedSince(init, m, j, u) {
      VerifiedSinceAppend(log, m, j, u);
    }
    if j: nat :| VerifiedSince(log, m, j, u) {
      if j < last { VerifiedSinceAppend(log, m, j, u); }
    }
  }

  /** The script opens the account of an active administrator with a verified address, who
      must enrol in MFA, and nothing else. */
  lemma BootedRow(op: MailOp, m: Mail)
    requires Boots(op, m)
    ensures op.user in MailAfter(op, m).registry.accounts
    ensures var account := MailAfter(op, m).registry.accounts[op.user];
      && account.email == op.email && account.role == ADMIN && account.status == ACTIVE
      && account.verifiedAt == Some(op.now) && account.mfaRequired
      && MailAfter(op, m) == m.(registry := m.registry.(accounts := m.registry.accounts[op.user := account]))
  {}

  // ----- tokens and their owners -----

  ghost predicate TokensOwned(m: Mail) {
    forall h :: h in m.tokens ==> m.tokens[h].userId in m.registry.accounts
  }

  lemma StepKeepsOwned(op: MailOp, m: Mail)
    requires TokensOwned(m)
    ensures TokensOwned(MailAfter(op, m))
  {}

  /** At every moment of a run each verification token belongs to an account that is there. */
  lemma {:induction false} TokensHaveOwners(log: seq<MailOp>, m: Mail)
    requires TokensOwned(m)
    ensures TokensOwned(MailRun(log, m))
  {
    if log != [] {
      TokensHaveOwners(log[..|log| - 1], m);
      StepKeepsOwned(log[|log| - 1], MailRun(log[..|log| - 1], m));
    }
  }

  /** Deleting a user deletes that user's tokens and no other. */
  lemma DeletionTakesTokens(now: Time, u: UserId, m: Mail)
    requires TokensOwned(m)
    ensures var after := MailAfter(Membership(Invitations.Remove(now, u)), m);
      && after.registry.accounts == m.registry.accounts - {u}
      && (forall h :: h in after.tokens <==> h in m.tokens && m.tokens[h].userId != u)
      && (forall h :: h in after.tokens ==> after.tokens[h] == m.tokens[h])
  {}

  // ----- where a token came from -----

  lemma TokenStays(op: MailOp, m: Mail, h: Hash)
    requires h in MailAfter(op, m).tokens
    ensures var t := MailAfter(op, m).tokens[h];
      if h in m.tokens then m.tokens[h].userId == t.userId && m.tokens[h].expiresAt == t.expiresAt
      else Sends(op, m, t.userId) && op.hash == h && t.expiresAt == op.now + VERIFICATION_TTL
  {}

  lemma {:induction false} TokenWasSent(log: seq<MailOp>, m: Mail, h: Hash) returns (i: nat)
    requires m.tokens == map[] && h in MailRun(log, m).tokens
    ensures SentAt(log, m, i, MailRun(log, m).tokens[h].userId, h)
    ensures MailRun(log, m).tokens[h].expiresAt == log[i].now + VERIFICATION_TTL
  {
    var init, op := log[..|log| - 1], log[|log| - 1];
    TokenStays(op, MailRun(init, m), h);
    if h in MailRun(init, m).tokens {
      i := TokenWasSent(init, m, h);
      assert init[..i] == log[..i];
    } else {
      i := |log| - 1;
    }
  }

  lemma {:induction false} VerifiedHasOrigin(log: seq<MailOp>, m: Mail, u: UserId) returns (j: nat)
    requires IsVerified(MailRun(log, m), u) && !IsVerified(m, u)
    ensures BecameVerified(log, m, j, u)
  {
    var init := log[..|log| - 1];
    assert log[..|init|] == init;
    if IsVerified(MailRun(init, m), u) {
      j := VerifiedHasOrigin(init, m, u);
      assert init[..j] == log[..j] && init[j] == log[j];
    } else {
      j := |init|;
      VerifiedAfter(log[j], MailRun(init, m), u);
    }
  }

  /** An address is verified only because the account was opened by redeeming an
      invitation or by the script, or because its owner was sent a token and that very
      token came back within a day. */
  lemma VerifiedThroughTokenOrInvitation(log: seq<MailOp>, m: Mail, u: UserId) returns (i: nat, j: nat)
    requires m.tokens == map[] && !IsVerified(m, u) && IsVerified(MailRun(log, m), u)
    ensures BecameVerified(log, m, j, u)
    ensures VerifiedAt(log, m, j, u) ==>
      i < j && SentAt(log, m, i, u, log[j].hash) && log[j].now < log[i].now + 86400000
  {
    i := 0;
    j := VerifiedHasOrigin(log, m, u);
    if VerifiedAt(log, m, j, u) {
      i := TokenWasSent(log[..j], m, log[j].hash);
      assert log[..j][..i] == log[..i];
    }
  }

  /** While nobody redeems an invitation or runs the script, only the own token does. */
  lemma SignupsVerifyByToken(log: seq<MailOp>, m: Mail, u: UserId) returns (i: nat, j: nat)
    requires m.tokens == map[] && !IsVerified(m, u) && IsVerified(MailRun(log, m), u)
    requires forall k :: 0 <= k < |log| ==> !log[k].Bootstrap? && !(log[k].Membership? && log[k].op.Redeem?)
    ensures i < j && VerifiedAt(log, m, j, u) && SentAt(log, m, i, u, log[j].hash)
    ensures log[j].now < log[i].now + 86400000
  {
    i, j := VerifiedThroughTokenOrInvitation(log, m, u);
  }

  /** Redeeming an invitation verifies the new account with no token sent. */
  lemma RedemptionNeedsNoToken(op: Invitations.Op, m: Mail, id: Invitations.InvitationId)
    requires Invitations.Redeems(op, m.registry, id)
    ensures IsVerified(MailAfter(Membership(op), m), op.newUser) && !IsVerified(m, op.newUser)
    ensures forall h :: h in MailAfter(Membership(op), m).tokens ==> h in m.tokens
  {}
}
