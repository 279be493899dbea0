/** What holds of refresh sessions over every run of the authentication handlers. */
module SessionRuns {
  import opened Basics
  import opened AuthModel
  import opened Sessions

  lemma AppliedNames(e: Event, db: Db)
    requires FreshFor(e, NamesIn(db))
    ensures forall i :: i in Apply(e, db).sessions && i !in db.sessions ==>
      Apply(e, db).sessions[i].tokenHash in NewHashes(e)
      && (Apply(e, db).sessions[i].family in NewFamilies(e) || Apply(e, db).sessions[i].family in NamesIn(db).families)
    ensures Apply(e, db).users.Keys <= db.users.Keys + NewUsers(e)
  {
    AppliedSessionNames(e, db);
    AppliedUsers(e, db);
  }

  lemma AppliedUsers(e: Event, db: Db)
    ensures Apply(e, db).users.Keys <= db.users.Keys + NewUsers(e)
  {
    if Commits(e, db) {
      OnlyDrawnUsers(e, db);
      UsersOfRun(Program(e, db), db, NewUsers(e));
    }
  }

  lemma OnlyDrawnUsers(e: Event, db: Db)
    ensures forall s :: s in Program(e, db) && s.InsertUser? ==> s.user in NewUsers(e)
  {
    if e.AdminPatch? && e.user in db.users {
      assert forall s :: s in PatchProgram(e, db.users[e.user]) ==> !s.InsertUser?;
    }
  }

  lemma AppliedSessionNames(e: Event, db: Db)
    requires FreshFor(e, NamesIn(db))
    ensures forall i :: i in Apply(e, db).sessions && i !in db.sessions ==>
      Apply(e, db).sessions[i].tokenHash in NewHashes(e)
      && (Apply(e, db).sessions[i].family in NewFamilies(e) || Apply(e, db).sessions[i].family in NamesIn(db).families)
  {
    if e.Refresh? && Accepts(db, e) {
      RotationEffect(e, db);
      assert db.sessions[FindSession(db, e.token).value].family in NamesIn(db).families;
    } else if e.Login? && LoginAccepted(db, e) {
      LoginEffect(e, db);
    } else if e.AdminDelete? && e.user in db.users {
      DeleteEffect(e, db);
    } else {
      ApplyIsQuiet(e, db);
    }
  }

  lemma {:induction false} UsersOfRun(p: seq<Stmt>, db: Db, added: set<UserId>)
    requires Run(p, db).Some?
    requires forall s :: s in p && s.InsertUser? ==> s.user in added
    ensures Run(p, db).value.users.Keys <= db.users.Keys + added
  {
    if p != [] {
      assert p[0] in p;
      assert Do(p[0], db).users.Keys <= db.users.Keys + added;
      assert forall s :: s in p[1..] ==> s in p;
      UsersOfRun(p[1..], Do(p[0], db), added);
    }
  }

  predicate Within(n: Names, m: Names) {
    n.ids <= m.ids && n.hashes <= m.hashes && n.families <= m.families && n.users <= m.users
  }

  /** Every name in the tables was there at the start or was drawn during the run. */
  lemma {:induction false} UsedCovers(log: seq<Event>, db: Db)
    requires FreshRun(log, db)
    ensures Within(NamesIn(Replay(log, db)), Used(log, db))
  {
    if log != [] {
      var init, e := log[..|log| - 1], log[|log| - 1];
      UsedCovers(init, db);
      var before := Replay(init, db);
      ApplyEvolves(e, before);
      AppliedNames(e, before);
      forall i | i in Apply(e, before).sessions
        ensures Apply(e, before).sessions[i].tokenHash in Used(log, db).hashes
        ensures Apply(e, before).sessions[i].family in Used(log, db).families
      {
        if i in before.sessions {
          assert before.sessions[i].tokenHash in NamesIn(before).hashes;
          assert before.sessions[i].family in NamesIn(before).families;
        }
      }
    }
  }

  lemma StaysFresh(log: seq<Event>, db: Db)
    requires FreshRun(log, db) && log != []
    ensures FreshFor(log[|log| - 1], NamesIn(Replay(log[..|log| - 1], db)))
  {
    UsedCovers(log[..|log| - 1], db);
  }

  lemma FreshAt(log: seq<Event>, db: Db, i: nat)
    requires FreshRun(log, db) && i < |log|
    ensures FreshFor(log[i], NamesIn(At(log, db, i)))
  {
    FreshPrefix(log, db, i + 1);
    StaysFresh(log[..i + 1], db);
    assert log[..i + 1][..i] == log[..i];
  }

  lemma {:induction false} UsedGrows(log: seq<Event>, db: Db, i: nat)
    requires i <= |log|
    ensures Within(Used(log[..i], db), Used(log, db))
  {
    if i < |log| {
      UsedGrows(log[..|log| - 1], db, i);
      assert log[..|log| - 1][..i] == log[..i];
    } else {
      assert log[..i] == log;
    }
  }

  // ----- the chain invariant -----

  ghost function ChainsAfter(log: seq<Event>, db: Db, chains: Chains): Chains {
    if log == [] then chains
    else
      var init := log[..|log| - 1];
      NextChains(log[|log| - 1], Replay(init, db), ChainsAfter(init, db, chains))
  }

  lemma {:induction false} RunKeepsChains(log: seq<Event>, db: Db, chains: Chains)
    requires FreshRun(log, db) && Consistent(db) && ChainsOf(db.sessions, chains)
    ensures Consistent(Replay(log, db)) && ChainsOf(Replay(log, db).sessions, ChainsAfter(log, db, chains))
  {
    if log != [] {
      var init, e := log[..|log| - 1], log[|log| - 1];
      RunKeepsChains(init, db, chains);
      StaysFresh(log, db);
      ApplyKeepsConsistent(e, Replay(init, db));
      ApplyKeepsChains(e, Replay(init, db), ChainsAfter(init, db, chains));
    }
  }

  /** Reachable states: every family is one chain, whatever the handlers do. */
  lemma ReachableIsValid(log: seq<Event>, db: Db)
    requires FreshRun(log, db) && Valid(db)
    ensures Valid(Replay(log, db))
  {
    var chains :| ChainsOf(db.sessions, chains);
    RunKeepsChains(log, db, chains);
  }

  // ----- chain length -----

  ghost predicate RotatesFamily(e: Event, db: Db, f: Family) {
    e.Refresh? && Accepts(db, e) && db.sessions[FindSession(db, e.token).value].family == f
  }

  /** The number of successful refreshes of a family during a run. */
  ghost function Rotations(log: seq<Event>, db: Db, f: Family): nat {
    if log == [] then 0
    else
      var init := log[..|log| - 1];
      Rotations(init, db, f) + if RotatesFamily(log[|log| - 1], Replay(init, db), f) then 1 else 0
  }

  lemma RotatingFamilyIsPresent(e: Event, db: Db, f: Family)
    ensures RotatesFamily(e, db, f) ==> f in NamesIn(db).families
  {
    if RotatesFamily(e, db, f) {
      assert db.sessions[FindSession(db, e.token).value].family in NamesIn(db).families;
    }
  }

  lemma {:induction false} UnusedFamilyNeverRotates(log: seq<Event>, db: Db, f: Family)
    requires FreshRun(log, db) && f !in Used(log, db).families
    ensures Rotations(log, db, f) == 0
  {
    if log != [] {
      var init := log[..|log| - 1];
      UnusedFamilyNeverRotates(init, db, f);
      UsedCovers(init, db);
      RotatingFamilyIsPresent(log[|log| - 1], Replay(init, db), f);
    }
  }

  lemma ChainFamiliesAreUsed(db: Db, chains: Chains, f: Family)
    requires ChainsOf(db.sessions, chains) && f in chains
    ensures f in NamesIn(db).families
  {
    assert IsChain(db.sessions, f, chains[f]);
    assert Linked(db.sessions, f, chains[f], 0);
    assert db.sessions[chains[f].ids[0]].family in NamesIn(db).families;
  }

  /** A family present at the end has one row more than it had successful refreshes
      (counted from the rows it started the run with). */
  lemma {:induction false} ChainLength(log: seq<Event>, db: Db, chains: Chains, f: Family)
    requires FreshRun(log, db) && Consistent(db) && ChainsOf(db.sessions, chains)
    requires f in ChainsAfter(log, db, chains)
    ensures |ChainsAfter(log, db, chains)[f].ids|
         == (if f in chains then |chains[f].ids| else 1) + Rotations(log, db, f)
  {
    if log != [] {
      var init, e := log[..|log| - 1], log[|log| - 1];
      var before, cs := Replay(init, db), ChainsAfter(init, db, chains);
      RunKeepsChains(init, db, chains);
      if e.Login? && LoginAccepted(before, e) && f == e.newFamily {
        UnusedFamilyNeverRotates(init, db, f);
        if f in chains {
          ChainFamiliesAreUsed(db, chains, f);
          UsedGrows(init, db, 0);
        }
      } else {
        assert f in cs;
        ChainLength(init, db, chains, f);
      }
    }
  }

  // ----- no revoked session is live again -----

  ghost function IdsDrawn(log: seq<Event>): set<SessionId> {
    if log == [] then {} else IdsDrawn(log[..|log| - 1]) + NewIds(log[|log| - 1])
  }

  lemma {:induction false} IdsDrawnAreNew(log: seq<Event>, db: Db, i: nat)
    requires FreshRun(log, db) && i <= |log|
    ensures IdsDrawn(log[i..]) !! Used(log[..i], db).ids
  {
    if i < |log| {
      var init := log[..|log| - 1];
      IdsDrawnAreNew(init, db, i);
      assert log[i..][..|log[i..]| - 1] == init[i..] && init[..i] == log[..i];
      UsedGrows(init, db, i);
    }
  }

  lemma {:induction false} RunEvolution(log: seq<Event>, db: Db, i: nat)
    requires FreshRun(log, db) && i <= |log|
    ensures Evolution(At(log, db, i).sessions, Replay(log, db).sessions, IdsDrawn(log[i..]))
  {
    if i == |log| {
      assert log[..i] == log;
    } else {
      var init, e := log[..|log| - 1], log[|log| - 1];
      RunEvolution(init, db, i);
      assert init[..i] == log[..i] && log[i..][..|log[i..]| - 1] == init[i..];
      StaysFresh(log, db);
      ApplyEvolves(e, Replay(init, db));
      IdsDrawnAreNew(log, db, i);
      FreshPrefix(log, db, i);
      UsedCovers(log[..i], db);
    }
  }

  /** A session revoked at some point of a run is revoked at every later point. */
  lemma NoRevival(log: seq<Event>, db: Db, i: nat, id: SessionId)
    requires FreshRun(log, db) && i <= |log|
    requires id in At(log, db, i).sessions && id in Replay(log, db).sessions
    ensures Evolves(At(log, db, i).sessions[id], Replay(log, db).sessions[id])
  {
    RunEvolution(log, db, i);
    IdsDrawnAreNew(log, db, i);
    FreshPrefix(log, db, i);
    UsedCovers(log[..i], db);
  }

  // ----- a refresh token succeeds at most once -----

  ghost predicate Succeeds(log: seq<Event>, db: Db, i: nat, token: Hash)
    requires i < |log|
  {
    log[i].Refresh? && log[i].token == token && Accepts(At(log, db, i), log[i])
  }

  ghost predicate Dead(db: Db, token: Hash) {
    forall id :: HoldsToken(db, id, token) ==> !db.sessions[id].Live()
  }

  lemma RotatedTokenIsDead(e: Event, db: Db)
    requires e.Refresh? && Accepts(db, e) && Consistent(db) && FreshFor(e, NamesIn(db))
    ensures Dead(Apply(e, db), e.token)
  {
    RotationEffect(e, db);
    NewNamesAreUnused(e, db);
  }

  lemma DeadStaysDead(e: Event, db: Db, token: Hash)
    requires Dead(db, token) && token !in NewHashes(e) && FreshFor(e, NamesIn(db))
    ensures Dead(Apply(e, db), token)
  {
    ApplyEvolves(e, db);
    AppliedNames(e, db);
    forall id | HoldsToken(Apply(e, db), id, token)
      ensures !Apply(e, db).sessions[id].Live()
    {
      assert id in db.sessions;
      assert HoldsToken(db, id, token);
    }
  }

  lemma {:induction false} DeadAfter(log: seq<Event>, db: Db, i: nat, token: Hash)
    requires FreshRun(log, db) && i <= |log| && Dead(At(log, db, i), token) && token in Used(log[..i], db).hashes
    ensures Dead(Replay(log, db), token)
  {
    if i == |log| {
      assert log[..i] == log;
    } else {
      var init := log[..|log| - 1];
      assert init[..i] == log[..i];
      DeadAfter(init, db, i, token);
      StaysFresh(log, db);
      UsedGrows(init, db, i);
      DeadStaysDead(log[|log| - 1], Replay(init, db), token);
    }
  }

  lemma SuccessKillsToken(log: seq<Event>, db: Db, i: nat, token: Hash)
    requires FreshRun(log, db) && Valid(db) && i < |log| && Succeeds(log, db, i, token)
    ensures Dead(At(log, db, i + 1), token) && token in Used(log[..i + 1], db).hashes
  {
    SoundAt(log, db, i);
    ReplayStep(log, db, i);
    assert Dead(At(log, db, i + 1), token) by {
      RotatedTokenIsDead(log[i], At(log, db, i));
    }
    AcceptedTokenIsUsed(log[i], At(log, db, i));
    assert log[..i + 1][..i] == log[..i];
    UsedGrows(log[..i + 1], db, i);
  }

  /** The state before the i-th handler is valid and that handler draws new names. */
  lemma SoundAt(log: seq<Event>, db: Db, i: nat)
    requires FreshRun(log, db) && Valid(db) && i < |log|
    ensures Valid(At(log, db, i)) && FreshFor(log[i], NamesIn(At(log, db, i)))
    ensures Within(NamesIn(At(log, db, i)), Used(log[..i], db))
  {
    FreshPrefix(log, db, i);
    ReachableIsValid(log[..i], db);
    UsedCovers(log[..i], db);
  }

  lemma AcceptedTokenIsUsed(e: Event, db: Db)
    requires e.Refresh? && Accepts(db, e)
    ensures e.token in NamesIn(db).hashes
  {
    assert db.sessions[FindSession(db, e.token).value].tokenHash in NamesIn(db).hashes;
  }

  /** Over any run a refresh token is accepted at most once. */
  lemma TokenSucceedsOnce(log: seq<Event>, db: Db, i: nat, j: nat, token: Hash)
    requires FreshRun(log, db) && Valid(db) && i < j < |log|
    requires Succeeds(log, db, i, token)
    ensures !Succeeds(log, db, j, token)
  {
    SuccessKillsToken(log, db, i, token);
    DeadLater(log, db, i + 1, j, token);
    DeadIsRefused(log[j], At(log, db, j), token);
  }

  lemma DeadLater(log: seq<Event>, db: Db, i: nat, j: nat, token: Hash)
    requires FreshRun(log, db) && i <= j <= |log|
    requires Dead(At(log, db, i), token) && token in Used(log[..i], db).hashes
    ensures Dead(At(log, db, j), token)
  {
    FreshPrefix(log, db, j);
    assert log[..j][..i] == log[..i];
    DeadAfter(log[..j], db, i, token);
  }

  lemma DeadIsRefused(e: Event, db: Db, token: Hash)
    requires Dead(db, token)
    ensures !(e.Refresh? && e.token == token && Accepts(db, e))
  {
    var found := FindSession(db, token);
    assert found.Some? ==> HoldsToken(db, found.value, token);
  }

  // ----- simultaneous presentations of one token -----

  lemma FindIsUnique(db: Db, id: SessionId, token: Hash)
    requires Consistent(db) && HoldsToken(db, id, token)
    ensures FindSession(db, token) == Some(id)
  {}

  /** Requests that all present the same live token of an active user. */
  ghost predicate SameLiveToken(log: seq<Event>, db: Db, id: SessionId, token: Hash) {
    HoldsToken(db, id, token) && forall e :: e in log ==> e.Refresh? && e.token == token && Rotatable(db, id, e.at)
  }

  lemma LoserChangesNothing(e: Event, d: Db, id: SessionId)
    requires e.Refresh? && Consistent(d) && HoldsToken(d, id, e.token)
    requires !d.sessions[id].Live() && d.sessions[id].replacedBy.Some?
    ensures !Accepts(d, e) && Apply(e, d) == d
  {
    FindIsUnique(d, id, e.token);
  }

  lemma {:induction false} FirstOneWins(log: seq<Event>, db: Db, id: SessionId, token: Hash)
    requires FreshRun(log, db) && Valid(db) && log != [] && SameLiveToken(log, db, id, token)
    ensures log[0].Refresh? && log[0].newId !in db.sessions
    ensures Replay(log, db) == db.(sessions := Rotated(db.sessions, id, log[0].now, log[0].newId, log[0].newHash))
  {
    assert log[0] in log;
    if |log| == 1 {
      FindIsUnique(db, id, token);
      StaysFresh(log, db);
      assert log[..0] == [];
      RotationEffect(log[0], db);
    } else {
      var init := log[..|log| - 1];
      assert forall e :: e in init ==> e in log;
      FirstOneWins(init, db, id, token);
      ReachableIsValid(init, db);
      LoserChangesNothing(log[|log| - 1], Replay(init, db), id);
    }
  }

  /** In whatever order k requests with one live token are served, exactly one
      succeeds, and the losers leave the winner's replacement live. */
  lemma ConcurrentRefreshes(log: seq<Event>, db: Db, id: SessionId, token: Hash)
    requires FreshRun(log, db) && Valid(db) && log != [] && SameLiveToken(log, db, id, token)
    ensures Succeeds(log, db, 0, token)
    ensures forall i :: 0 < i < |log| ==> !Succeeds(log, db, i, token)
    ensures var s := Replay(log, db).sessions; log[0].newId in s && id in s && s[log[0].newId].Live() && !s[id].Live()
  {
    FirstOneWins(log, db, id, token);
    FindIsUnique(db, id, token);
    assert log[..0] == [];
    assert log[0] in log;
    forall i | 0 < i < |log| ensures !Succeeds(log, db, i, token) {
      TokenSucceedsOnce(log, db, 0, i, token);
    }
  }

  /** A token that is dead without having been replaced takes its family with it; one
      that was replaced is refused without any effect. */
  lemma DeadTokenRevokesFamily(e: Event, db: Db, id: SessionId)
    requires e.Refresh? && Valid(db) && HoldsToken(db, id, e.token) && !Rotatable(db, id, e.at)
    ensures !db.sessions[id].Live() && db.sessions[id].replacedBy.Some? ==> Apply(e, db) == db
    ensures db.sessions[id].Live() || db.sessions[id].replacedBy.None? ==>
      forall i :: i in Apply(e, db).sessions && Apply(e, db).sessions[i].family == db.sessions[id].family ==>
        !Apply(e, db).sessions[i].Live()
    ensures forall i :: i in db.sessions && db.sessions[i].family != db.sessions[id].family ==>
      i in Apply(e, db).sessions && Apply(e, db).sessions[i] == db.sessions[i]
  {
    RefusalEffect(e, db, id);
    FamilyEnds(db.sessions, db.sessions[id].family, e.now);
  }

  lemma FamilyEnds(s: map<SessionId, Session>, f: Family, at: Time)
    ensures forall i :: i in s + LiveOfFamily(s, f, at) ==> i in s
    ensures forall i :: i in s && s[i].family == f ==> !(s + LiveOfFamily(s, f, at))[i].Live()
    ensures forall i :: i in s ==> (s + LiveOfFamily(s, f, at))[i].family == s[i].family
    ensures forall i :: i in s && s[i].family != f ==> (s + LiveOfFamily(s, f, at))[i] == s[i]
  {}

  lemma RefusalEffect(e: Event, db: Db, id: SessionId)
    requires e.Refresh? && Consistent(db) && HoldsToken(db, id, e.token) && !Rotatable(db, id, e.at)
    ensures Apply(e, db) ==
      if !db.sessions[id].Live() && db.sessions[id].replacedBy.Some? then db
      else db.(sessions := db.sessions + LiveOfFamily(db.sessions, db.sessions[id].family, e.now))
  {
    FindIsUnique(db, id, e.token);
    RunOne(RevokeFamily(db.sessions[id].family, e.now), db);
  }

  // ----- password reset and administrator revocation -----

  lemma ResetEffect(e: Event, db: Db)
    requires e.ResetPassword? && ResetUsable(db, e.resetToken, e.now)
    ensures var u := db.resets[e.resetToken].userId;
      var d := Apply(e, db);
      && Commits(e, db)
      && d.users == db.users[u := ChangeUser(db.users[u], PasswordReset(e.password))]
      && d.sessions == db.sessions + LiveOfUser(db.sessions, u, e.now)
      && d.resets == db.resets + UnusedOf(db.resets, u, e.now)
      && d.codes == db.codes && d.secrets == db.secrets
  {
    var u := db.resets[e.resetToken].userId;
    var p := Program(e, db);
    var d1 := Do(p[0], db);
    var d2 := Do(p[1], d1);
    assert p[1..][1..] == [RevokeUser(u, e.now)];
    RunOne(RevokeUser(u, e.now), d2);
    assert Run(p[1..], d1) == Run(p[1..][1..], d2);
  }

  /** The handler e ends every session user u has. */
  ghost predicate EndsSessions(e: Event, db: Db, u: UserId) {
    || (e.ResetPassword? && ResetUsable(db, e.resetToken, e.now) && db.resets[e.resetToken].userId == u)
    || (e.AdminRevokeSessions? && e.user == u && u in db.users && Commits(e, db))
    || (e.LogoutAll? && e.user == u)
  }

  lemma EndedSessions(e: Event, db: Db, u: UserId)
    requires EndsSessions(e, db, u)
    ensures forall i :: i in Apply(e, db).sessions && Apply(e, db).sessions[i].userId == u ==>
      !Apply(e, db).sessions[i].Live()
  {
    if e.ResetPassword? {
      ResetEffect(e, db);
    } else if e.AdminRevokeSessions? {
      var guard := GuardIfAdmin(db.users[u], e.now, 2);
      RunConcat(guard, [RevokeUser(u, e.now)], db);
      if guard != [] {
        RunOne(guard[0], db);
      }
      RunOne(RevokeUser(u, e.now), db);
    } else {
      RunOne(RevokeUser(u, e.now), db);
    }
  }

  /** After a committed reset (or revocation) every live session of the user is newer. */
  lemma ResetEndsOlderSessions(log: seq<Event>, db: Db, i: nat, u: UserId, id: SessionId)
    requires FreshRun(log, db) && i < |log| && EndsSessions(log[i], At(log, db, i), u)
    requires id in Replay(log, db).sessions && Replay(log, db).sessions[id].userId == u &&
      Replay(log, db).sessions[id].Live()
    ensures id !in At(log, db, i + 1).sessions
    ensures id in IdsDrawn(log[i + 1..])
  {
    ReplayStep(log, db, i);
    EndedSessions(log[i], At(log, db, i), u);
    if id in At(log, db, i + 1).sessions {
      NoRevival(log, db, i + 1, id);
    }
    RunEvolution(log, db, i + 1);
  }
}
