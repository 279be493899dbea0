/**
 Invitations and the accounts they open.  An email address is what normaliseEmail
 returns: trimmed and in lower case.
 */
module Invitations {
  import opened Basics
  import opened AuthModel

  type InvitationId = nat

  const INVITATION_TTL: int := 7 * 24 * 60 * 60 * 1000

  datatype Invitation = Invitation(
    email: string, tokenHash: Hash, role: Role, expiresAt: Time, usedAt: Option<Time>, revokedAt: Option<Time>)
  {
    predicate Open(now: Time) { usedAt.None? && revokedAt.None? && expiresAt > now }
  }

  datatype Account = Account(email: string, role: Role, status: Status, verifiedAt: Option<Time>, mfaRequired: bool)

  datatype Registry = Registry(accounts: map<UserId, Account>, invitations: map<InvitationId, Invitation>)

  datatype Op =
    | Create(now: Time, id: InvitationId, email: string, role: Role, hash: Hash)
    | Resend(now: Time, id: InvitationId, hash: Hash)
    | Revoke(now: Time, id: InvitationId)
    | Redeem(now: Time, hash: Hash, email: string, newUser: UserId)
    | Signup(now: Time, email: string, newUser: UserId)
    | Remove(now: Time, user: UserId)

  // ----- queries -----

  ghost predicate HoldsHash(r: Registry, id: InvitationId, hash: Hash) {
    id in r.invitations && r.invitations[id].tokenHash == hash
  }

  ghost predicate OpenFor(r: Registry, id: InvitationId, email: string, now: Time) {
    id in r.invitations && r.invitations[id].email == email && r.invitations[id].Open(now)
  }

  ghost predicate HasAddress(r: Registry, u: UserId, email: string) {
    u in r.accounts && r.accounts[u].email == email
  }

  ghost predicate HashTaken(r: Registry, hash: Hash) {
    exists id :: HoldsHash(r, id, hash)
  }

  ghost predicate Invited(r: Registry, email: string, now: Time) {
    exists id :: OpenFor(r, id, email, now)
  }

  ghost predicate EmailTaken(r: Registry, email: string) {
    exists u :: HasAddress(r, u, email)
  }

  // ----- what a request does -----

  ghost predicate Creates(op: Op, r: Registry) {
    op.Create? && !Invited(r, op.email, op.now) && op.id !in r.invitations && !HashTaken(r, op.hash)
  }

  ghost predicate Resends(op: Op, r: Registry) {
    && op.Resend? && op.id in r.invitations && r.invitations[op.id].Open(op.now)
    && (HashTaken(r, op.hash) ==> HoldsHash(r, op.id, op.hash))
  }

  predicate Revokes(op: Op, r: Registry) {
    && op.Revoke? && op.id in r.invitations
    && r.invitations[op.id].usedAt.None? && r.invitations[op.id].revokedAt.None?
  }

  /** The request redeems invitation `id`. */
  ghost predicate Redeems(op: Op, r: Registry, id: InvitationId) {
    && op.Redeem? && HoldsHash(r, id, op.hash) && OpenFor(r, id, op.email, op.now)
    && !EmailTaken(r, op.email) && op.newUser !in r.accounts
  }

  ghost predicate Signs(op: Op, r: Registry) {
    op.Signup? && !EmailTaken(r, op.email) && op.newUser !in r.accounts
  }

  function AccountOf(i: Invitation, now: Time): Account {
    Account(i.email, i.role, ACTIVE, Some(now), i.role == ADMIN)
  }

  ghost function After(op: Op, r: Registry): Registry {
    match op
    case Create(now, id, email, role, hash) =>
      if Creates(op, r)
      then r.(invitations := r.invitations[id := Invitation(email, hash, role, now + INVITATION_TTL, None, None)])
      else r
    case Resend(_, id, hash) =>
      if Resends(op, r) then r.(invitations := r.invitations[id := r.invitations[id].(tokenHash := hash)]) else r
    case Revoke(now, id) =>
      if Revokes(op, r) then r.(invitations := r.invitations[id := r.invitations[id].(revokedAt := Some(now))]) else r
    case Redeem(now, _, _, user) =>
      if exists id :: Redeems(op, r, id) then
        var id :| Redeems(op, r, id);
        Registry(r.accounts[user := AccountOf(r.invitations[id], now)],
                 r.invitations[id := r.invitations[id].(usedAt := Some(now))])
      else r
    case Signup(_, email, user) =>
      if Signs(op, r) then r.(accounts := r.accounts[user := Account(email, USER, ACTIVE, None, false)]) else r
    case Remove(_, user) => r.(accounts := r.accounts - {user})
  }

  ghost predicate Succeeds(op: Op, r: Registry) {
    match op
    case Create(_, _, _, _, _) => Creates(op, r)
    case Resend(_, _, _) => Resends(op, r)
    case Revoke(_, _) => Revokes(op, r)
    case Redeem(_, _, _, _) => exists id :: Redeems(op, r, id)
    case Signup(_, _, _) => Signs(op, r)
    case Remove(_, user) => user in r.accounts
  }

  // ----- the invariant -----

  ghost predicate UniqueHashes(r: Registry) {
    forall i, j, h :: HoldsHash(r, i, h) && HoldsHash(r, j, h) ==> i == j
  }

  ghost predicate UniqueEmails(r: Registry) {
    forall u, v, email :: HasAddress(r, u, email) && HasAddress(r, v, email) ==> u == v
  }

  ghost predicate NeverBoth(r: Registry) {
    forall id :: id in r.invitations ==> r.invitations[id].usedAt.None? || r.invitations[id].revokedAt.None?
  }

  /** Token hashes and addresses are unique and no invitation is both used and revoked. */
  ghost predicate Sound(r: Registry) {
    UniqueHashes(r) && UniqueEmails(r) && NeverBoth(r)
  }

  /** At most one invitation is open per address. */
  ghost predicate OneOpenEach(r: Registry, now: Time) {
    forall i, j, email :: OpenFor(r, i, email, now) && OpenFor(r, j, email, now) ==> i == j
  }

  lemma RedeemEffect(op: Op, r: Registry, id: InvitationId)
    requires UniqueHashes(r) && Redeems(op, r, id)
    ensures After(op, r) == Registry(r.accounts[op.newUser := AccountOf(r.invitations[id], op.now)],
                                     r.invitations[id := r.invitations[id].(usedAt := Some(op.now))])
  {}

  lemma HashesStayUnique(op: Op, r: Registry)
    requires UniqueHashes(r)
    ensures UniqueHashes(After(op, r))
  {
    var r' := After(op, r);
    if op.Redeem? {
      assert forall i, h :: HoldsHash(r', i, h) <==> HoldsHash(r, i, h);
    } else {
      forall i, j, h | HoldsHash(r', i, h) && HoldsHash(r', j, h)
        ensures i == j
      {
        assert op.Create? && i != op.id ==> HoldsHash(r, i, h);
        assert op.Create? && j != op.id ==> HoldsHash(r, j, h);
        assert op.Resend? && i != op.id ==> HoldsHash(r, i, h);
        assert op.Resend? && j != op.id ==> HoldsHash(r, j, h);
        assert !op.Create? && !op.Resend? ==> HoldsHash(r, i, h) && HoldsHash(r, j, h);
      }
    }
  }

  lemma EmailsStayUnique(op: Op, r: Registry)
    requires UniqueEmails(r)
    ensures UniqueEmails(After(op, r))
  {
    var r' := After(op, r);
    forall u, v, email | HasAddress(r', u, email) && HasAddress(r', v, email)
      ensures u == v
    {
      assert (op.Redeem? || op.Signup?) && u != op.newUser ==> HasAddress(r, u, email);
      assert (op.Redeem? || op.Signup?) && v != op.newUser ==> HasAddress(r, v, email);
      assert !op.Redeem? && !op.Signup? ==> HasAddress(r, u, email) && HasAddress(r, v, email);
    }
  }

  lemma StaysSound(op: Op, r: Registry)
    requires Sound(r)
    ensures Sound(After(op, r))
  {
    HashesStayUnique(op, r);
    EmailsStayUnique(op, r);
  }

  lemma StaysOneOpen(op: Op, r: Registry, before: Time)
    requires OneOpenEach(r, before) && before <= op.now
    ensures OneOpenEach(After(op, r), op.now)
  {
    var r' := After(op, r);
    forall i, j, email | OpenFor(r', i, email, op.now) && OpenFor(r', j, email, op.now)
      ensures i == j
    {
      assert !(op.Create? && i == op.id && Creates(op, r)) ==>
        OpenFor(r, i, email, before) && OpenFor(r, i, email, op.now);
      assert !(op.Create? && j == op.id && Creates(op, r)) ==>
        OpenFor(r, j, email, before) && OpenFor(r, j, email, op.now);
    }
  }

  // ----- the handlers -----

  class InvitationDesk {
    var accounts: map<UserId, Account>
    var invitations: map<InvitationId, Invitation>

    ghost function View(): Registry
      reads this
    {
      Registry(accounts, invitations)
    }

    constructor (accounts: map<UserId, Account>)
      ensures View() == Registry(accounts, map[])
    {
      this.accounts, invitations := accounts, map[];
    }

    method FindByHash(hash: Hash) returns (found: Option<InvitationId>)
      ensures found.Some? ==> HoldsHash(View(), found.value, hash)
      ensures found.Some? <==> HashTaken(View(), hash)
    {
      var rest := invitations.Keys;
      while rest != {}
        invariant rest <= invitations.Keys
        invariant forall i :: i in invitations.Keys - rest ==> invitations[i].tokenHash != hash
      {
        var i :| i in rest;
        if invitations[i].tokenHash == hash {
          assert HoldsHash(View(), i, hash);
          return Some(i);
        }
        rest := rest - {i};
      }
      found := None;
    }

    method OpenInvitationFor(email: string, now: Time) returns (found: bool)
      ensures found == Invited(View(), email, now)
    {
      var rest := invitations.Keys;
      while rest != {}
        invariant rest <= invitations.Keys
        invariant forall i :: i in invitations.Keys - rest ==>
          !(invitations[i].email == email && invitations[i].Open(now))
      {
        var i :| i in rest;
        if invitations[i].email == email && invitations[i].Open(now) {
          assert OpenFor(View(), i, email, now);
          return true;
        }
        rest := rest - {i};
      }
      found := false;
    }

    method AccountFor(email: string) returns (found: bool)
      ensures found == EmailTaken(View(), email)
    {
      var rest := accounts.Keys;
      while rest != {}
        invariant rest <= accounts.Keys
        invariant forall u :: u in accounts.Keys - rest ==> accounts[u].email != email
      {
        var u :| u in rest;
        if accounts[u].email == email {
          assert HasAddress(View(), u, email);
          return true;
        }
        rest := rest - {u};
      }
      found := false;
    }

    method CreateInvitation(now: Time, id: InvitationId, email: string, role: Role, hash: Hash) returns (created: bool)
      modifies this`invitations
      ensures View() == After(Create(now, id, email, role, hash), old(View()))
      ensures created == Succeeds(Create(now, id, email, role, hash), old(View()))
    {
      var active := OpenInvitationFor(email, now);
      if active {
        return false;
      }
      var taken := FindByHash(hash);
      if id in invitations || taken.Some? {
        return false;
      }
      invitations := invitations[id := Invitation(email, hash, role, now + INVITATION_TTL, None, None)];
      created := true;
    }

    method ResendInvitation(now: Time, id: InvitationId, hash: Hash) returns (sent: bool)
      requires Sound(View())
      modifies this`invitations
      ensures View() == After(Resend(now, id, hash), old(View()))
      ensures sent == Succeeds(Resend(now, id, hash), old(View()))
    {
      if id !in invitations || !invitations[id].Open(now) {
        return false;
      }
      var holder := FindByHash(hash);
      if holder.Some? && holder.value != id {
        return false;
      }
      invitations := invitations[id := invitations[id].(tokenHash := hash)];
      sent := true;
    }

    method RevokeInvitation(now: Time, id: InvitationId) returns (revoked: bool)
      modifies this`invitations
      ensures View() == After(Revoke(now, id), old(View()))
      ensures revoked == Succeeds(Revoke(now, id), old(View()))
    {
      if id !in invitations || invitations[id].usedAt.Some? || invitations[id].revokedAt.Some? {
        return false;
      }
      invitations := invitations[id := invitations[id].(revokedAt := Some(now))];
      revoked := true;
    }

    /** One transaction: the row is locked and rechecked, the account inserted and the
        invitation marked; every failed check rolls back. */
    method RedeemInvitation(now: Time, hash: Hash, email: string, newUser: UserId) returns (redeemed: bool)
      requires Sound(View())
      modifies this
      ensures View() == After(Redeem(now, hash, email, newUser), old(View()))
      ensures redeemed == Succeeds(Redeem(now, hash, email, newUser), old(View()))
    {
      ghost var op := Redeem(now, hash, email, newUser);
      var found := FindByHash(hash);
      if found.None? || !invitations[found.value].Open(now) || invitations[found.value].email != email {
        assert forall id: InvitationId :: HoldsHash(View(), id, hash) ==> found == Some(id);
        return false;
      }
      var taken := AccountFor(email);
      if taken || newUser in accounts {
        return false;
      }
      var id := found.value;
      assert Redeems(op, View(), id);
      RedeemEffect(op, View(), id);
      var row := invitations[id];
      accounts := accounts[newUser := Account(row.email, row.role, ACTIVE, Some(now), row.role == ADMIN)];
      invitations := invitations[id := invitations[id].(usedAt := Some(now))];
      redeemed := true;
    }
  }

  // ----- runs -----

  ghost function Replay(log: seq<Op>, r: Registry): Registry {
    if log == [] then r else After(log[|log| - 1], Replay(log[..|log| - 1], r))
  }

  ghost function At(log: seq<Op>, r: Registry, i: nat): Registry
    requires i <= |log|
  {
    Replay(log[..i], r)
  }

  predicate Ordered(log: seq<Op>) {
    forall i, j :: 0 <= i < j < |log| ==> log[i].now <= log[j].now
  }

  /** Every reachable state is sound. */
  lemma {:induction false} ReachableIsSound(log: seq<Op>, r: Registry)
    requires Sound(r)
    ensures Sound(Replay(log, r))
  {
    if log != [] {
      ReachableIsSound(log[..|log| - 1], r);
      StaysSound(log[|log| - 1], Replay(log[..|log| - 1], r));
    }
  }

  /** At any moment of a run at most one invitation per address is open. */
  lemma {:induction false} OneOpenThroughout(log: seq<Op>, r: Registry, start: Time)
    requires OneOpenEach(r, start) && Ordered(log) && (log != [] ==> start <= log[0].now)
    ensures OneOpenEach(Replay(log, r), if log == [] then start else log[|log| - 1].now)
  {
    if log != [] {
      var init := log[..|log| - 1];
      OneOpenThroughout(init, r, start);
      StaysOneOpen(log[|log| - 1], Replay(init, r), if init == [] then start else init[|init| - 1].now);
    }
  }

  // ----- redeemed at most once -----

  lemma ClosedStays(op: Op, r: Registry, id: InvitationId)
    requires UniqueHashes(r) && id in r.invitations
    ensures id in After(op, r).invitations
    ensures r.invitations[id].usedAt.Some? ==> After(op, r).invitations[id].usedAt.Some?
    ensures r.invitations[id].revokedAt.Some? ==> After(op, r).invitations[id].revokedAt.Some?
    ensures Redeems(op, r, id) ==> After(op, r).invitations[id].usedAt.Some?
  {}

  ghost predicate Closed(r: Registry, id: InvitationId) {
    id in r.invitations && (r.invitations[id].usedAt.Some? || r.invitations[id].revokedAt.Some?)
  }

  lemma {:induction false} ClosedForGood(log: seq<Op>, r: Registry, i: nat, id: InvitationId)
    requires Sound(r) && i <= |log| && Closed(At(log, r, i), id)
    ensures Closed(Replay(log, r), id)
  {
    if i == |log| {
      assert log[..i] == log;
    } else {
      var init := log[..|log| - 1];
      assert init[..i] == log[..i];
      ReachableIsSound(init, r);
      ClosedForGood(init, r, i, id);
      ClosedStays(log[|log| - 1], Replay(init, r), id);
    }
  }

  /** Over any run an invitation is redeemed at most once, and never after it was
      revoked. */
  lemma RedeemedOnce(log: seq<Op>, r: Registry, i: nat, j: nat, id: InvitationId)
    requires Sound(r) && i < j < |log|
    requires Redeems(log[i], At(log, r, i), id) || (Revokes(log[i], At(log, r, i)) && log[i].id == id)
    ensures !Redeems(log[j], At(log, r, j), id)
  {
    var before := log[..j];
    ReachableIsSound(log[..i], r);
    ClosedStays(log[i], At(log, r, i), id);
    assert log[..i + 1][..i] == log[..i];
    assert before[..i + 1] == log[..i + 1];
    ClosedForGood(before, r, i + 1, id);
  }

  /** The new account has the address and the role of the invitation, and an invited
      administrator must enrol in MFA. */
  lemma RedeemedAccount(op: Op, r: Registry, id: InvitationId)
    requires Sound(r) && Redeems(op, r, id)
    ensures var account := After(op, r).accounts[op.newUser];
      && account.email == r.invitations[id].email == op.email && account.role == r.invitations[id].role
      && account.status == ACTIVE && account.verifiedAt == Some(op.now)
      && (account.role == ADMIN <==> account.mfaRequired)
    ensures After(op, r).invitations[id].usedAt == Some(op.now)
    ensures After(op, r).accounts - {op.newUser} == r.accounts
    ensures After(op, r).invitations - {id} == r.invitations - {id}
  {
    RedeemEffect(op, r, id);
  }

  function UsedOf(r: Registry): set<InvitationId> {
    set id | id in r.invitations && r.invitations[id].usedAt.Some?
  }

  /** How many accounts were opened by invitation. */
  ghost function Redemptions(log: seq<Op>, r: Registry): nat {
    if log == [] then 0
    else
      var init, op := log[..|log| - 1], log[|log| - 1];
      Redemptions(init, r) + if op.Redeem? && Succeeds(op, Replay(init, r)) then 1 else 0
  }

  lemma OneMoreUsed(op: Op, r: Registry, id: InvitationId)
    requires Sound(r) && Redeems(op, r, id)
    ensures |UsedOf(After(op, r))| == |UsedOf(r)| + 1
  {
    RedeemEffect(op, r, id);
    assert UsedOf(After(op, r)) == UsedOf(r) + {id};
  }

  lemma UsedAfter(op: Op, r: Registry)
    requires Sound(r)
    ensures |UsedOf(After(op, r))| == |UsedOf(r)| + if op.Redeem? && Succeeds(op, r) then 1 else 0
  {
    if op.Redeem? && Succeeds(op, r) {
      var id :| Redeems(op, r, id);
      OneMoreUsed(op, r, id);
    } else {
      assert UsedOf(After(op, r)) == UsedOf(r);
    }
  }

  /** Used invitations and accounts opened by invitation keep step: none is marked
      without an account, none opens two. */
  lemma {:induction false} UsedAreRedeemed(log: seq<Op>, r: Registry)
    requires Sound(r)
    ensures |UsedOf(Replay(log, r))| == |UsedOf(r)| + Redemptions(log, r)
  {
    if log != [] {
      var init := log[..|log| - 1];
      ReachableIsSound(init, r);
      UsedAreRedeemed(init, r);
      UsedAfter(log[|log| - 1], Replay(init, r));
    }
  }

  // ----- within a week of its creation -----

  ghost predicate CreatedAt(log: seq<Op>, r: Registry, i: nat, id: InvitationId) {
    i < |log| && Creates(log[i], At(log, r, i)) && log[i].id == id
  }

  lemma {:induction false} InvitationWasCreated(log: seq<Op>, r: Registry, id: InvitationId) returns (i: nat)
    requires r.invitations == map[] && id in Replay(log, r).invitations
    ensures CreatedAt(log, r, i, id)
    ensures var row := Replay(log, r).invitations[id];
      row.email == log[i].email && row.role == log[i].role && row.expiresAt == log[i].now + 604800000
  {
    var init := log[..|log| - 1];
    if id in Replay(init, r).invitations {
      i := InvitationWasCreated(init, r, id);
      assert init[..i] == log[..i];
    } else {
      i := |init|;
    }
  }

  /** However often it is resent, an invitation redeems only within seven days of its
      creation, for the address and with the role it was created with. */
  lemma RedeemedWithinAWeek(log: seq<Op>, r: Registry, j: nat, id: InvitationId) returns (i: nat)
    requires r.invitations == map[] && j < |log| && Redeems(log[j], At(log, r, j), id)
    ensures i < j && CreatedAt(log, r, i, id) && log[j].now < log[i].now + 604800000
    ensures log[i].email == log[j].email && At(log, r, j).invitations[id].role == log[i].role
  {
    i := InvitationWasCreated(log[..j], r, id);
    assert log[..j][..i] == log[..i];
  }

  // ----- who becomes an administrator -----

  /** Request i opened account u by invitation `id`. */
  ghost predicate OpenedBy(log: seq<Op>, r: Registry, i: nat, u: UserId, id: InvitationId) {
    i < |log| && Redeems(log[i], At(log, r, i), id) && log[i].newUser == u
  }

  lemma SignedUpRow(op: Op, r: Registry)
    requires Signs(op, r)
    ensures After(op, r) == r.(accounts := After(op, r).accounts)
    ensures After(op, r).accounts - {op.newUser} == r.accounts - {op.newUser}
    ensures var account := After(op, r).accounts[op.newUser];
      && account.email == op.email && account.role == USER && account.status == ACTIVE
      && account.verifiedAt.None? && !account.mfaRequired
  {}

  lemma NewAccount(op: Op, r: Registry, u: UserId)
    requires UniqueHashes(r) && u in After(op, r).accounts && u !in r.accounts
    ensures (Signs(op, r) && op.newUser == u && After(op, r).accounts[u].role == USER)
         || (op.newUser == u &&
             exists id :: Redeems(op, r, id) && After(op, r).accounts[u].role == r.invitations[id].role)
  {
    if op.Signup? {
      SignedUpRow(op, r);
    } else {
      var id :| Redeems(op, r, id);
      RedeemEffect(op, r, id);
    }
  }

  lemma OldAccount(op: Op, r: Registry, u: UserId)
    requires UniqueHashes(r) && u in After(op, r).accounts && u in r.accounts
    ensures After(op, r).accounts[u] == r.accounts[u]
  {
    if op.Redeem? && exists id :: Redeems(op, r, id) {
      var id :| Redeems(op, r, id);
      RedeemEffect(op, r, id);
    }
  }

  /** Nobody signs up as an administrator: over any run of these requests that starts empty
      the account of an administrator was opened, within seven days, by an invitation that
      was created for the role ADMIN. */
  lemma {:induction false} AdministratorsWereInvited(log: seq<Op>, r: Registry, u: UserId)
      returns (i: nat, id: InvitationId, j: nat)
    requires Sound(r) && r.invitations == map[] && r.accounts == map[]
    requires u in Replay(log, r).accounts && Replay(log, r).accounts[u].role == ADMIN
    ensures OpenedBy(log, r, i, u, id) && j < i && CreatedAt(log, r, j, id) && log[j].role == ADMIN
    ensures log[i].now < log[j].now + 604800000
  {
    var init, op := log[..|log| - 1], log[|log| - 1];
    ReachableIsSound(init, r);
    if u in Replay(init, r).accounts {
      OldAccount(op, Replay(init, r), u);
      i, id, j := AdministratorsWereInvited(init, r, u);
      assert init[..i] == log[..i] && init[..j] == log[..j];
    } else {
      NewAccount(op, Replay(init, r), u);
      i := |init|;
      id :| Redeems(op, Replay(init, r), id) && Replay(init, r).invitations[id].role == ADMIN;
      j := RedeemedWithinAWeek(log, r, i, id);
    }
  }

  // ----- the latest token only -----

  /** The hash an invitation got from the last request that gave it one. */
  ghost function LatestHash(log: seq<Op>, r: Registry, id: InvitationId): Option<Hash> {
    if log == [] then if id in r.invitations then Some(r.invitations[id].tokenHash) else None
    else
      var init, op := log[..|log| - 1], log[|log| - 1];
      if (Creates(op, Replay(init, r)) || Resends(op, Replay(init, r))) && op.id == id then Some(op.hash)
      else LatestHash(init, r, id)
  }

  lemma {:induction false} TokenIsLatest(log: seq<Op>, r: Registry, id: InvitationId)
    ensures LatestHash(log, r, id) ==
      if id in Replay(log, r).invitations then Some(Replay(log, r).invitations[id].tokenHash) else None
  {
    if log != [] {
      TokenIsLatest(log[..|log| - 1], r, id);
    }
  }

  /** Only the token sent last redeems an invitation. */
  lemma OnlyTheLatestRedeems(log: seq<Op>, r: Registry, j: nat, id: InvitationId)
    requires j < |log| && Redeems(log[j], At(log, r, j), id)
    ensures LatestHash(log[..j], r, id) == Some(log[j].hash)
  {
    TokenIsLatest(log[..j], r, id);
  }

  predicate Gives(op: Op, hash: Hash) {
    (op.Create? || op.Resend?) && op.hash == hash
  }

  lemma {:induction false} ReplacedStaysAway(log: seq<Op>, r: Registry, i: nat, hash: Hash)
    requires i <= |log| && !HashTaken(At(log, r, i), hash)
    requires forall k :: i <= k < |log| ==> !Gives(log[k], hash)
    ensures !HashTaken(Replay(log, r), hash)
  {
    if i == |log| {
      assert log[..i] == log;
    } else {
      var init := log[..|log| - 1];
      assert init[..i] == log[..i];
      ReplacedStaysAway(init, r, i, hash);
      var before, after := Replay(init, r), Replay(log, r);
      assert !Gives(log[|log| - 1], hash);
      forall id ensures !HoldsHash(after, id, hash) {
        assert !HoldsHash(before, id, hash);
      }
    }
  }

  /** Once a resend has replaced a token, that token redeems nothing, as long as the
      random source does not draw it again. */
  lemma ReplacedNeverRedeems(log: seq<Op>, r: Registry, i: nat, j: nat, id: InvitationId, hash: Hash)
    requires Sound(r) && i < j < |log|
    requires Resends(log[i], At(log, r, i)) && HoldsHash(At(log, r, i), log[i].id, hash)
    requires forall k :: i <= k < j ==> !Gives(log[k], hash)
    requires log[j].Redeem? && log[j].hash == hash
    ensures !Redeems(log[j], At(log, r, j), id)
  {
    var before := log[..j];
    ReachableIsSound(log[..i], r);
    assert log[..i + 1][..i] == log[..i];
    assert before[..i + 1] == log[..i + 1];
    var was, now := At(log, r, i), At(log, r, i + 1);
    forall k: InvitationId ensures !HoldsHash(now, k, hash) {
      assert k != log[i].id ==> HoldsHash(now, k, hash) ==> HoldsHash(was, k, hash);
    }
    assert !HashTaken(At(before, r, i + 1), hash);
    assert forall k :: i + 1 <= k < |before| ==> before[k] == log[k];
    ReplacedStaysAway(before, r, i + 1, hash);
  }
}
