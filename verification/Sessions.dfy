/**
 Refresh-token families over whole runs: each family is one chain of replaced
 sessions, at most its tail is live, and a token rotates at most once.
 */
module Sessions {
  import opened Basics
  import opened AuthModel

  // ----- names drawn from the random source are new -----

  datatype Names = Names(ids: set<SessionId>, hashes: set<Hash>, families: set<Family>, users: set<UserId>)

  ghost function NamesIn(db: Db): Names {
    Names(db.sessions.Keys,
          set i | i in db.sessions :: db.sessions[i].tokenHash,
          set i | i in db.sessions :: db.sessions[i].family,
          db.users.Keys)
  }

  /** Every name in use at some point of the run. */
  ghost function Used(log: seq<Event>, db: Db): Names {
    if log == [] then NamesIn(db)
    else
      var n, e := Used(log[..|log| - 1], db), log[|log| - 1];
      Names(n.ids + NewIds(e), n.hashes + NewHashes(e), n.families + NewFamilies(e), n.users + NewUsers(e))
  }

  ghost predicate FreshFor(e: Event, n: Names) {
    NewIds(e) !! n.ids && NewHashes(e) !! n.hashes && NewFamilies(e) !! n.families && NewUsers(e) !! n.users
  }

  /** The modelling assumption on randomness: no name is ever drawn twice. */
  ghost predicate FreshRun(log: seq<Event>, db: Db) {
    log != [] ==>
      FreshRun(log[..|log| - 1], db) && FreshFor(log[|log| - 1], Used(log[..|log| - 1], db))
  }

  lemma {:induction false} FreshPrefix(log: seq<Event>, db: Db, i: nat)
    requires FreshRun(log, db) && i <= |log|
    ensures FreshRun(log[..i], db)
    ensures i < |log| ==> FreshFor(log[i], Used(log[..i], db))
  {
    if i < |log| - 1 {
      FreshPrefix(log[..|log| - 1], db, i);
      assert log[..|log| - 1][..i] == log[..i];
    } else if i == |log| {
      assert log[..i] == log;
    }
  }

  // ----- how a row of refresh_sessions evolves -----

  predicate Evolves(a: Session, b: Session) {
    && b.userId == a.userId && b.tokenHash == a.tokenHash && b.family == a.family && b.expiresAt == a.expiresAt
    && (!a.Live() ==> !b.Live())
  }

  /** Rows either continue an old row or are new; no revoked row is live again. */
  ghost predicate Evolution(s: map<SessionId, Session>, s': map<SessionId, Session>, added: set<SessionId>) {
    forall i :: i in s' ==> if i in s then Evolves(s[i], s'[i]) else i in added
  }

  lemma StmtEvolves(s: Stmt, db: Db)
    requires Applicable(s, db)
    ensures Evolution(db.sessions, Do(s, db).sessions, if s.InsertSession? then {s.session} else {})
  {}

  lemma {:induction false} RunEvolves(p: seq<Stmt>, base: map<SessionId, Session>, db: Db, added: set<SessionId>)
    requires Run(p, db).Some? && added !! base.Keys
    requires forall s :: s in p && s.InsertSession? ==> s.session in added
    requires Evolution(base, db.sessions, added)
    ensures Evolution(base, Run(p, db).value.sessions, added)
  {
    if p != [] {
      StmtEvolves(p[0], db);
      assert p[0] in p;
      assert forall s :: s in p[1..] ==> s in p;
      RunEvolves(p[1..], base, Do(p[0], db), added);
    }
  }

  lemma ApplyEvolves(e: Event, db: Db)
    requires NewIds(e) !! db.sessions.Keys
    ensures Evolution(db.sessions, Apply(e, db).sessions, NewIds(e))
  {
    if Commits(e, db) {
      OnlyDrawnSessions(e, db);
      RunEvolves(Program(e, db), db.sessions, db, NewIds(e));
    }
  }

  lemma OnlyDrawnSessions(e: Event, db: Db)
    ensures forall s :: s in Program(e, db) && s.InsertSession? ==> s.session in NewIds(e)
  {
    if e.AdminPatch? && e.user in db.users {
      assert forall s :: s in PatchProgram(e, db.users[e.user]) ==> !s.InsertSession?;
    }
  }

  // ----- chains -----

  /** The rows of one family, oldest first. */
  datatype Chain = Chain(owner: UserId, ids: seq<SessionId>)

  type Chains = map<Family, Chain>

  /** The k-th row is replaced by the next one and revoked; the last is not replaced. */
  predicate Linked(s: map<SessionId, Session>, f: Family, c: Chain, k: nat)
    requires k < |c.ids|
  {
    && c.ids[k] in s && s[c.ids[k]].family == f && s[c.ids[k]].userId == c.owner
    && if k == |c.ids| - 1 then s[c.ids[k]].replacedBy == None
       else s[c.ids[k]].replacedBy == Some(c.ids[k + 1]) && !s[c.ids[k]].Live()
  }

  /** `c` is exactly the family `f`, as one simple chain of replacements. */
  ghost predicate IsChain(s: map<SessionId, Session>, f: Family, c: Chain) {
    && c.ids != [] && AllDiffer(c.ids)
    && (forall i :: i in s && s[i].family == f ==> i in c.ids)
    && (forall k :: 0 <= k < |c.ids| ==> Linked(s, f, c, k))
  }

  ghost predicate Consistent(db: Db) {
    && (forall i :: i in db.sessions ==> db.sessions[i].userId in db.users)
    && (forall i, j :: i in db.sessions && j in db.sessions ==>
          db.sessions[i].tokenHash == db.sessions[j].tokenHash ==> i == j)
  }

  ghost predicate ChainsOf(s: map<SessionId, Session>, chains: Chains) {
    && (forall i :: i in s ==> s[i].family in chains)
    && (forall f :: f in chains ==> IsChain(s, f, chains[f]))
  }

  /** The invariant of the session table. */
  ghost predicate Valid(db: Db) {
    Consistent(db) && exists chains :: ChainsOf(db.sessions, chains)
  }

  /** A family has one owner, and only the tail of its chain can be live. */
  lemma Member(s: map<SessionId, Session>, chains: Chains, i: SessionId) returns (k: nat)
    requires ChainsOf(s, chains) && i in s
    ensures var c := chains[s[i].family]; k < |c.ids| && c.ids[k] == i && s[i].userId == c.owner
    ensures s[i].Live() ==> k == |chains[s[i].family].ids| - 1 && s[i].replacedBy.None?
  {
    var f := s[i].family;
    assert IsChain(s, f, chains[f]);
    k :| 0 <= k < |chains[f].ids| && chains[f].ids[k] == i;
    assert Linked(s, f, chains[f], k);
  }

  lemma OneLivePerFamily(db: Db, i: SessionId, j: SessionId)
    requires Valid(db) && i in db.sessions && j in db.sessions
    requires db.sessions[i].family == db.sessions[j].family && db.sessions[i].Live() && db.sessions[j].Live()
    ensures i == j && db.sessions[i].replacedBy.None?
  {
    var chains :| ChainsOf(db.sessions, chains);
    var k := Member(db.sessions, chains, i);
    var l := Member(db.sessions, chains, j);
  }

  // ----- every handler keeps the chains -----

  /** A chain stays a chain when its rows only get revoked and the family gains none. */
  lemma ChainFrame(s: map<SessionId, Session>, s': map<SessionId, Session>, f: Family, c: Chain)
    requires IsChain(s, f, c)
    requires forall i :: i in s' && s'[i].family == f ==> i in s && s[i].family == f
    requires forall i :: i in s && s[i].family == f ==>
               i in s' && s'[i] == s[i].(revokedAt := s'[i].revokedAt) && (!s[i].Live() ==> !s'[i].Live())
    ensures IsChain(s', f, c)
  {
    forall k | 0 <= k < |c.ids|
      ensures Linked(s', f, c, k)
    {
      assert Linked(s, f, c, k);
    }
  }

  /** Only `revoked_at` of live rows differs. */
  ghost predicate OnlyRevokes(s: map<SessionId, Session>, s': map<SessionId, Session>) {
    && s'.Keys == s.Keys
    && forall i :: i in s ==> s'[i] == s[i].(revokedAt := s'[i].revokedAt) && (!s[i].Live() ==> s'[i] == s[i])
  }

  predicate Quiet(s: Stmt) {
    !s.InsertSession? && !s.RotateSession? && !s.DropUser?
  }

  lemma QuietStmt(s: Stmt, db: Db)
    requires Applicable(s, db) && Quiet(s)
    ensures OnlyRevokes(db.sessions, Do(s, db).sessions) && db.users.Keys <= Do(s, db).users.Keys
  {}

  lemma OnlyRevokesTransitive(a: map<SessionId, Session>, b: map<SessionId, Session>, c: map<SessionId, Session>)
    requires OnlyRevokes(a, b) && OnlyRevokes(b, c)
    ensures OnlyRevokes(a, c)
  {}

  lemma {:induction false} QuietRun(p: seq<Stmt>, db: Db)
    requires Run(p, db).Some? && forall s :: s in p ==> Quiet(s)
    ensures OnlyRevokes(db.sessions, Run(p, db).value.sessions)
    ensures db.users.Keys <= Run(p, db).value.users.Keys
  {
    if p != [] {
      QuietStmt(p[0], db);
      assert forall s :: s in p[1..] ==> s in p;
      QuietRun(p[1..], Do(p[0], db));
      OnlyRevokesTransitive(db.sessions, Do(p[0], db).sessions, Run(p, db).value.sessions);
    }
  }

  lemma RevokingKeepsChains(s: map<SessionId, Session>, s': map<SessionId, Session>, chains: Chains)
    requires ChainsOf(s, chains) && OnlyRevokes(s, s')
    ensures ChainsOf(s', chains)
  {
    forall f | f in chains
      ensures IsChain(s', f, chains[f])
    {
      ChainFrame(s, s', f, chains[f]);
    }
  }

  lemma NewNamesAreUnused(e: Event, db: Db)
    requires FreshFor(e, NamesIn(db))
    ensures forall i, h :: i in db.sessions && h in NewHashes(e) ==> db.sessions[i].tokenHash != h
    ensures forall i, f :: i in db.sessions && f in NewFamilies(e) ==> db.sessions[i].family != f
  {
    forall i, h | i in db.sessions && h in NewHashes(e) ensures db.sessions[i].tokenHash != h {
      assert db.sessions[i].tokenHash in NamesIn(db).hashes;
    }
    forall i, f | i in db.sessions && f in NewFamilies(e) ensures db.sessions[i].family != f {
      assert db.sessions[i].family in NamesIn(db).families;
    }
  }

  function Rotated(s: map<SessionId, Session>, id: SessionId, now: Time, newId: SessionId,
        hash: Hash): map<SessionId, Session>
    requires id in s
  {
    s[newId := Session(s[id].userId, hash, s[id].family, now + REFRESH_TTL, None, None)]
     [id := s[id].(revokedAt := Some(now), replacedBy := Some(newId))]
  }

  lemma RotationEffect(e: Event, db: Db)
    requires e.Refresh? && Accepts(db, e) && e.newId !in db.sessions
    ensures Apply(e, db) ==
      db.(sessions := Rotated(db.sessions, FindSession(db, e.token).value, e.now, e.newId, e.newHash))
    ensures Commits(e, db)
  {
    var p := RefreshProgram(e, db);
    var d1 := Do(p[0], db);
    assert Run(p[1..], d1) == Run(p[1..][1..], Do(p[1], d1)) == Some(Do(p[1], d1));
  }

  function Extended(chains: Chains, f: Family, newId: SessionId): Chains {
    if f in chains then chains[f := chains[f].(ids := chains[f].ids + [newId])] else chains
  }

  lemma RotationExtendsChain(s: map<SessionId, Session>, chains: Chains, id: SessionId, now: Time, newId: SessionId,
        hash: Hash)
    requires ChainsOf(s, chains) && id in s && s[id].Live() && newId !in s
    ensures ChainsOf(Rotated(s, id, now, newId, hash), Extended(chains, s[id].family, newId))
  {
    var f := s[id].family;
    var s' := Rotated(s, id, now, newId, hash);
    var last := Member(s, chains, id);
    LinkAppended(s, f, chains[f], last, now, newId, hash);
    OtherChainsKept(s, chains, id, now, newId, hash);
  }

  lemma OtherChainsKept(s: map<SessionId, Session>, chains: Chains, id: SessionId, now: Time, newId: SessionId,
        hash: Hash)
    requires ChainsOf(s, chains) && id in s && newId !in s
    ensures forall g :: g in chains && g != s[id].family ==> IsChain(Rotated(s, id, now, newId, hash), g, chains[g])
  {
    forall g | g in chains && g != s[id].family
      ensures IsChain(Rotated(s, id, now, newId, hash), g, chains[g])
    {
      ChainFrame(s, Rotated(s, id, now, newId, hash), g, chains[g]);
    }
  }

  /** Rotating the tail of a chain appends the new row to it. */
  lemma LinkAppended(s: map<SessionId, Session>, f: Family, c: Chain, last: nat, now: Time, newId: SessionId,
        hash: Hash)
    requires IsChain(s, f, c) && last == |c.ids| - 1 && c.ids[last] in s && newId !in s
    requires s[c.ids[last]].family == f
    ensures IsChain(Rotated(s, c.ids[last], now, newId, hash), f, Chain(c.owner, c.ids + [newId]))
  {
    var s', c' := Rotated(s, c.ids[last], now, newId, hash), Chain(c.owner, c.ids + [newId]);
    forall k | 0 <= k < |c.ids|
      ensures c.ids[k] in s && (k < last ==> c.ids[k] != c.ids[last]) && Linked(s', f, c', k)
    {
      assert Linked(s, f, c, k);
    }
    assert c'.ids[last + 1] == newId;
    assert forall i :: i in c.ids ==> i in c'.ids;
  }

  lemma LoginEffect(e: Event, db: Db)
    requires e.Login? && LoginAccepted(db, e) && e.newId !in db.sessions
    ensures Apply(e, db) ==
      db.(users := db.users[e.user := ChangeUser(db.users[e.user], LoginSucceeded)],
          sessions := db.sessions[e.newId := Session(e.user, e.newHash, e.newFamily, e.now + REFRESH_TTL, None, None)])
    ensures Commits(e, db)
  {
    var p := Program(e, db);
    var d1 := Do(p[0], db);
    assert Run(p[1..], d1) == Run(p[1..][1..], Do(p[1], d1)) == Some(Do(p[1], d1));
  }

  lemma NewFamilyStartsChain(s: map<SessionId, Session>, chains: Chains, newId: SessionId, row: Session)
    requires ChainsOf(s, chains) && newId !in s && row.Live() && row.replacedBy.None?
    requires forall i :: i in s ==> s[i].family != row.family
    ensures ChainsOf(s[newId := row], chains[row.family := Chain(row.userId, [newId])])
  {
    var s' := s[newId := row];
    forall f | f in chains && f != row.family
      ensures IsChain(s', f, chains[f])
    {
      ChainFrame(s, s', f, chains[f]);
    }
    assert Linked(s', row.family, Chain(row.userId, [newId]), 0);
  }

  /** The families that survive the deletion of a user. */
  ghost function Without(chains: Chains, u: UserId): Chains {
    map f | f in chains && chains[f].owner != u :: chains[f]
  }

  lemma DropKeepsChains(db: Db, chains: Chains, u: UserId)
    requires ChainsOf(db.sessions, chains) && u in db.users
    ensures ChainsOf(Do(DropUser(u), db).sessions, Without(chains, u))
  {
    var s, s' := db.sessions, Do(DropUser(u), db).sessions;
    forall i | i in s
      ensures chains[s[i].family].owner == s[i].userId
    {
      var _ := Member(s, chains, i);
    }
    forall f | f in Without(chains, u)
      ensures IsChain(s', f, chains[f])
    {
      ChainFrame(s, s', f, chains[f]);
    }
  }

  lemma DeleteEffect(e: Event, db: Db)
    requires e.AdminDelete? && e.user in db.users
    ensures Apply(e, db) == if Commits(e, db) then Do(DropUser(e.user), db) else db
  {
    var guard := GuardIfAdmin(db.users[e.user], e.now, 1);
    RunConcat([DropUser(e.user)], guard, db);
    RunOne(DropUser(e.user), db);
    if guard != [] {
      RunOne(guard[0], Do(DropUser(e.user), db));
    }
  }

  /** The families after a handler: rotation extends one, login starts one, deletion
      of a user drops that user's. */
  ghost function NextChains(e: Event, db: Db, chains: Chains): Chains {
    if e.Refresh? && Accepts(db, e) then Extended(chains, db.sessions[FindSession(db, e.token).value].family, e.newId)
    else if e.Login? && LoginAccepted(db, e) then chains[e.newFamily := Chain(e.user, [e.newId])]
    else if e.AdminDelete? && e.user in db.users && Commits(e, db) then Without(chains, e.user)
    else chains
  }

  lemma QuietPrograms(e: Event, db: Db)
    requires !(e.Refresh? && Accepts(db, e)) && !(e.Login? && LoginAccepted(db, e))
    requires !(e.AdminDelete? && e.user in db.users)
    ensures forall s :: s in Program(e, db) ==> Quiet(s)
  {
    if e.AdminPatch? && e.user in db.users {
      assert forall s :: s in PatchProgram(e, db.users[e.user]) ==> Quiet(s);
    }
  }

  lemma ApplyIsQuiet(e: Event, db: Db)
    requires !(e.Refresh? && Accepts(db, e)) && !(e.Login? && LoginAccepted(db, e))
    requires !(e.AdminDelete? && e.user in db.users)
    ensures OnlyRevokes(db.sessions, Apply(e, db).sessions) && db.users.Keys <= Apply(e, db).users.Keys
  {
    if Commits(e, db) {
      QuietPrograms(e, db);
      QuietRun(Program(e, db), db);
    }
  }

  lemma ApplyKeepsConsistent(e: Event, db: Db)
    requires Consistent(db) && FreshFor(e, NamesIn(db))
    ensures Consistent(Apply(e, db))
  {
    NewNamesAreUnused(e, db);
    if e.Refresh? && Accepts(db, e) {
      RotationEffect(e, db);
    } else if e.Login? && LoginAccepted(db, e) {
      LoginEffect(e, db);
    } else if e.AdminDelete? && e.user in db.users {
      DeleteEffect(e, db);
    } else {
      ApplyIsQuiet(e, db);
    }
  }

  lemma ApplyKeepsChains(e: Event, db: Db, chains: Chains)
    requires ChainsOf(db.sessions, chains) && FreshFor(e, NamesIn(db))
    ensures ChainsOf(Apply(e, db).sessions, NextChains(e, db, chains))
  {
    if e.Refresh? && Accepts(db, e) {
      RotationEffect(e, db);
      RotationExtendsChain(db.sessions, chains, FindSession(db, e.token).value, e.now, e.newId, e.newHash);
    } else if e.Login? && LoginAccepted(db, e) {
      LoginEffect(e, db);
      NewNamesAreUnused(e, db);
      NewFamilyStartsChain(db.sessions, chains, e.newId, Apply(e, db).sessions[e.newId]);
    } else if e.AdminDelete? && e.user in db.users {
      DeleteEffect(e, db);
      DropKeepsChains(db, chains, e.user);
    } else {
      ApplyIsQuiet(e, db);
      RevokingKeepsChains(db.sessions, Apply(e, db).sessions, chains);
    }
  }
}
