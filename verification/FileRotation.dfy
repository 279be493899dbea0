/**
 The file-backed session list, and its simulation by the PostgreSQL tables: whatever
 the list accepts the tables accept, and they accept exactly the same requests as long
 as no token that was already rotated comes back.
 */
module FileRotation {
  import opened Basics
  import opened AuthModel
  import opened Sessions
  import opened SessionRuns

  datatype Entry = Entry(id: SessionId, row: Session)

  /** users.json and sessions.json. */
  datatype Files = Files(users: map<UserId, User>, list: seq<Entry>)

  /** The position of the first entry with this token hash, or the length. */
  function IndexOf(list: seq<Entry>, token: Hash): (k: nat)
    ensures k <= |list| && (k < |list| ==> list[k].row.tokenHash == token)
    ensures forall j :: 0 <= j < k ==> list[j].row.tokenHash != token
  {
    if list == [] then 0
    else if list[0].row.tokenHash == token then 0
    else 1 + IndexOf(list[1..], token)
  }

  function KillEntry(x: Entry, f: Family, at: Time): Entry {
    if x.row.family == f then x.(row := x.row.(revokedAt := Some(at))) else x
  }

  function KillFamily(list: seq<Entry>, f: Family, at: Time): (r: seq<Entry>)
    ensures |r| == |list| && forall k :: 0 <= k < |list| ==> r[k] == KillEntry(list[k], f, at)
  {
    seq(|list|, k requires 0 <= k < |list| => KillEntry(list[k], f, at))
  }

  predicate FileAccepts(f: Files, token: Hash, at: Time) {
    var k := IndexOf(f.list, token);
    && k < |f.list| && f.list[k].row.userId in f.users
    && f.list[k].row.Live() && at < f.list[k].row.expiresAt && f.users[f.list[k].row.userId].status == ACTIVE
  }

  function FileRefresh(f: Files, at: Time, token: Hash, newId: SessionId, newHash: Hash): seq<Entry> {
    var k := IndexOf(f.list, token);
    if k == |f.list| then f.list
    else if !FileAccepts(f, token, at) then KillFamily(f.list, f.list[k].row.family, at)
    else RotatedList(f.list, k, at, newId, newHash)
  }

  /** The k-th session replaced, its replacement pushed at the end. */
  function RotatedList(list: seq<Entry>, k: nat, at: Time, newId: SessionId, newHash: Hash): seq<Entry>
    requires k < |list|
  {
    var row := list[k].row;
    list[k := Entry(list[k].id, row.(revokedAt := Some(at), replacedBy := Some(newId)))]
    + [Entry(newId, Session(row.userId, newHash, row.family, at + REFRESH_TTL, None, None))]
  }

  // ----- the handler over the list -----

  class FileSessionStore {
    var list: seq<Entry>

    constructor ()
      ensures list == []
    {
      list := [];
    }

    method Refresh(users: map<UserId, User>, at: Time, token: Hash, newId: SessionId, newHash: Hash) returns (ok: bool)
      modifies this
      ensures list == FileRefresh(Files(users, old(list)), at, token, newId, newHash)
      ensures ok == FileAccepts(Files(users, old(list)), token, at)
    {
      var k := IndexOf(list, token);
      if k == |list| {
        return false;
      }
      var row := list[k].row;
      if row.userId !in users || row.revokedAt.Some? || row.expiresAt <= at || users[row.userId].status != ACTIVE {
        ghost var before := list;
        for j := 0 to |list|
          invariant |list| == |before|
          invariant forall i :: 0 <= i < j ==> list[i] == KillEntry(before[i], row.family, at)
          invariant forall i :: j <= i < |list| ==> list[i] == before[i]
        {
          if list[j].row.family == row.family {
            list := list[j := Entry(list[j].id, list[j].row.(revokedAt := Some(at)))];
          }
        }
        return false;
      }
      list := list[k := Entry(list[k].id, row.(revokedAt := Some(at), replacedBy := Some(newId)))];
      list := list + [Entry(newId, Session(row.userId, newHash, row.family, at + REFRESH_TTL, None, None))];
      return true;
    }
  }

  // ----- both back ends on the same requests -----

  /** The requests both back ends serve, at the same instants. */
  predicate Shared(e: Event) {
    (e.Refresh? && e.now == e.at) || e.Login? || e.Logout? || e.LogoutAll? || e.RevokeOne?
  }

  function RevokeEntry(list: seq<Entry>, k: nat, at: Time): seq<Entry>
    requires k < |list|
  {
    list[k := Entry(list[k].id, Revoked(list[k].row, at))]
  }

  ghost predicate Selected(list: seq<Entry>, k: nat, u: UserId, id: SessionId) {
    k < |list| && list[k].id == id && list[k].row.userId == u && list[k].row.Live()
  }

  ghost function FileStep(e: Event, f: Files): Files
    requires Shared(e)
  {
    match e
    case Refresh(_, at, token, newId, newHash) => f.(list := FileRefresh(f, at, token, newId, newHash))
    case Login(now, u, passwordOk, id, h, fam) =>
      if u !in f.users then f
      else if FileLoginAccepted(f, e) then
        Files(f.users[u := ChangeUser(f.users[u], LoginSucceeded)],
              f.list + [Entry(id, Session(u, h, fam, now + REFRESH_TTL, None, None))])
      else f.(users := f.users[u := ChangeUser(f.users[u], LoginFailed(now))])
    case Logout(now, token) =>
      var k := IndexOf(f.list, token);
      if k == |f.list| then f else f.(list := RevokeEntry(f.list, k, now))
    case LogoutAll(now, u) =>
      f.(list := seq(|f.list|, k requires 0 <= k < |f.list| =>
           if f.list[k].row.userId == u then Entry(f.list[k].id, Revoked(f.list[k].row, now)) else f.list[k]))
    case RevokeOne(now, u, id) =>
      if exists k :: Selected(f.list, k, u, id)
      then var k :| Selected(f.list, k, u, id); f.(list := RevokeEntry(f.list, k, now))
      else f
  }

  ghost predicate FileLoginAccepted(f: Files, e: Event)
    requires e.Login?
  {
    && e.user in f.users && e.passwordOk && f.users[e.user].status == ACTIVE
    && !(f.users[e.user].lockedUntil.Some? && f.users[e.user].lockedUntil.value > e.now)
  }

  /** An entry of the list describes a row of the table, and is live only if that is. */
  predicate Describes(x: Entry, s: map<SessionId, Session>) {
    && x.id in s && s[x.id].userId == x.row.userId && s[x.id].tokenHash == x.row.tokenHash
    && s[x.id].family == x.row.family && s[x.id].expiresAt == x.row.expiresAt
    && (x.row.Live() ==> s[x.id].Live())
  }

  ghost predicate Listed(list: seq<Entry>, id: SessionId) {
    exists k :: 0 <= k < |list| && list[k].id == id
  }

  predicate DescribesAll(list: seq<Entry>, s: map<SessionId, Session>) {
    forall k :: 0 <= k < |list| ==> Describes(list[k], s)
  }

  predicate DistinctIds(list: seq<Entry>) {
    forall j, k :: 0 <= j < k < |list| ==> list[j].id != list[k].id
  }

  predicate DeadIn(list: seq<Entry>, f: Family) {
    forall k :: 0 <= k < |list| && list[k].row.family == f ==> !list[k].row.Live()
  }

  /** In the family of a row the list does not know, the list has nothing live. */
  ghost predicate UnlistedFamiliesDead(list: seq<Entry>, s: map<SessionId, Session>) {
    forall id :: id in s && !Listed(list, id) ==> DeadIn(list, s[id].family)
  }

  ghost predicate ListMatches(list: seq<Entry>, s: map<SessionId, Session>) {
    DescribesAll(list, s) && DistinctIds(list) && UnlistedFamiliesDead(list, s)
  }

  ghost predicate Simulated(f: Files, db: Db) {
    f.users == db.users && Consistent(db) && ListMatches(f.list, db.sessions)
  }

  lemma FindAgrees(f: Files, db: Db, token: Hash)
    requires Simulated(f, db)
    ensures var k := IndexOf(f.list, token); k < |f.list| ==> FindSession(db, token) == Some(f.list[k].id)
    ensures IndexOf(f.list, token) == |f.list| && FindSession(db, token).Some? ==>
      !Listed(f.list, FindSession(db, token).value)
  {
    var k := IndexOf(f.list, token);
    if k < |f.list| {
      assert Describes(f.list[k], db.sessions);
      assert HoldsToken(db, f.list[k].id, token);
      FindIsUnique(db, f.list[k].id, token);
    } else if FindSession(db, token).Some? {
      var id := FindSession(db, token).value;
      forall j | 0 <= j < |f.list| ensures f.list[j].id != id {
        assert Describes(f.list[j], db.sessions);
      }
    }
  }

  /** Whatever the file-backed path accepts, the PostgreSQL path accepts. */
  lemma FileAcceptsImpliesTableAccepts(f: Files, db: Db, e: Event)
    requires Simulated(f, db) && e.Refresh? && FileAccepts(f, e.token, e.at)
    ensures Accepts(db, e)
  {
    FindAgrees(f, db, e.token);
    assert Describes(f.list[IndexOf(f.list, e.token)], db.sessions);
  }

  lemma RotatingMatches(list: seq<Entry>, s: map<SessionId, Session>, k: nat, at: Time, newId: SessionId, hash: Hash)
    requires ListMatches(list, s) && k < |list| && list[k].row.Live() && newId !in s
    ensures Describes(list[k], s)
    ensures ListMatches(RotatedList(list, k, at, newId, hash), Rotated(s, list[k].id, at, newId, hash))
  {
    assert Describes(list[k], s);
    var list' := RotatedList(list, k, at, newId, hash);
    var s' := Rotated(s, list[k].id, at, newId, hash);
    assert forall j :: 0 <= j < |list| ==> Describes(list[j], s) && list'[j].id == list[j].id;
    assert list'[|list|].id == newId;
    forall id | id in s' && !Listed(list', id)
      ensures DeadIn(list', s'[id].family)
    {
      forall j | 0 <= j < |list| ensures list[j].id != id {
        assert list'[j].id == list[j].id;
      }
      assert !Listed(list, id);
      assert DeadIn(list, s[id].family);
    }
  }

  /** Nothing but family fam changes, and what is new in it is not in the list. */
  ghost predicate OnlyFamily(s: map<SessionId, Session>, s': map<SessionId, Session>, fam: Family) {
    && (forall id :: id in s ==> id in s' && Evolves(s[id], s'[id]) && (s[id].family != fam ==> s'[id] == s[id]))
    && (forall id :: id in s' && id !in s ==> s'[id].family == fam)
  }

  /** A family dead in the list may change in the tables unnoticed. */
  lemma DeadFamilyMayChange(list: seq<Entry>, s: map<SessionId, Session>, s': map<SessionId, Session>, fam: Family)
    requires ListMatches(list, s) && DeadIn(list, fam) && OnlyFamily(s, s', fam)
    ensures ListMatches(list, s')
  {
    forall k | 0 <= k < |list|
      ensures Describes(list[k], s')
    {
      assert Describes(list[k], s);
    }
  }

  lemma KilledMatches(list: seq<Entry>, s: map<SessionId, Session>, fam: Family, at: Time)
    requires ListMatches(list, s)
    ensures ListMatches(KillFamily(list, fam, at), s) && DeadIn(KillFamily(list, fam, at), fam)
  {
    var l := KillFamily(list, fam, at);
    forall k | 0 <= k < |list|
      ensures Describes(l[k], s) && l[k].id == list[k].id
    {
      assert Describes(list[k], s);
    }
    forall id | id in s && !Listed(l, id)
      ensures DeadIn(l, s[id].family)
    {
      forall j | 0 <= j < |list| ensures list[j].id != id {
        assert l[j].id == list[j].id;
      }
      assert !Listed(list, id);
      assert DeadIn(list, s[id].family);
    }
  }

  /** Refreshing changes one family only. */
  lemma RefreshChangesOneFamily(db: Db, e: Event, id: SessionId)
    requires e.Refresh? && Consistent(db) && FreshFor(e, NamesIn(db)) && FindSession(db, e.token) == Some(id)
    ensures OnlyFamily(db.sessions, Apply(e, db).sessions, db.sessions[id].family)
    ensures Apply(e, db).users == db.users
  {
    if Accepts(db, e) {
      RotationEffect(e, db);
    } else {
      RefusalEffect(e, db, id);
    }
  }

  lemma RefusalMatches(f: Files, db: Db, e: Event)
    requires Simulated(f, db) && e.Refresh? && Shared(e) && FreshFor(e, NamesIn(db)) && !FileAccepts(f, e.token, e.at)
    ensures ListMatches(FileRefresh(f, e.at, e.token, e.newId, e.newHash), Apply(e, db).sessions)
    ensures Apply(e, db).users == db.users
  {
    var k := IndexOf(f.list, e.token);
    FindAgrees(f, db, e.token);
    if FindSession(db, e.token).Some? {
      var id := FindSession(db, e.token).value;
      var fam := db.sessions[id].family;
      RefreshChangesOneFamily(db, e, id);
      if k < |f.list| {
        assert Describes(f.list[k], db.sessions);
        KilledMatches(f.list, db.sessions, fam, e.at);
        DeadFamilyMayChange(KillFamily(f.list, fam, e.at), db.sessions, Apply(e, db).sessions, fam);
      } else {
        DeadFamilyMayChange(f.list, db.sessions, Apply(e, db).sessions, fam);
      }
    }
  }

  lemma GrantMatches(f: Files, db: Db, e: Event)
    requires Simulated(f, db) && e.Refresh? && Shared(e) && FreshFor(e, NamesIn(db)) && FileAccepts(f, e.token, e.at)
    ensures ListMatches(FileRefresh(f, e.at, e.token, e.newId, e.newHash), Apply(e, db).sessions)
    ensures Apply(e, db).users == db.users
  {
    FindAgrees(f, db, e.token);
    FileAcceptsImpliesTableAccepts(f, db, e);
    RotationEffect(e, db);
    var k := IndexOf(f.list, e.token);
    RotatingMatches(f.list, db.sessions, k, e.at, e.newId, e.newHash);
    assert Describes(f.list[k], db.sessions);
  }

  lemma RefreshMatches(f: Files, db: Db, e: Event)
    requires Simulated(f, db) && e.Refresh? && Shared(e) && FreshFor(e, NamesIn(db))
    ensures ListMatches(FileRefresh(f, e.at, e.token, e.newId, e.newHash), Apply(e, db).sessions)
    ensures Apply(e, db).users == db.users
  {
    if FileAccepts(f, e.token, e.at) {
      GrantMatches(f, db, e);
    } else {
      RefusalMatches(f, db, e);
    }
  }

  // ----- the other requests -----

  /** Entries keep their rows and only lose liveness. */
  predicate Fades(list: seq<Entry>, list': seq<Entry>) {
    |list'| == |list| && forall k :: 0 <= k < |list| ==>
      && list'[k].id == list[k].id && list'[k].row.family == list[k].row.family
      && (list'[k].row.Live() ==> list[k].row.Live())
  }

  lemma RevokingMatches(list: seq<Entry>, s: map<SessionId, Session>, list': seq<Entry>, s': map<SessionId, Session>)
    requires ListMatches(list, s) && Fades(list, list') && OnlyRevokes(s, s') && DescribesAll(list', s')
    ensures ListMatches(list', s')
  {
    forall id | id in s' && !Listed(list', id)
      ensures DeadIn(list', s'[id].family)
    {
      forall j | 0 <= j < |list| ensures list[j].id != id {
        assert list'[j].id == list[j].id;
      }
      assert !Listed(list, id);
      assert DeadIn(list, s[id].family);
    }
  }

  /** A request that revokes the row of one session in the tables, or none. */
  lemma OneRevokedMatches(list: seq<Entry>, s: map<SessionId, Session>, id: SessionId, k: nat, at: Time)
    requires ListMatches(list, s) && id in s && k <= |list|
    requires k < |list| ==> list[k].id == id
    requires k == |list| ==> forall j :: 0 <= j < |list| && list[j].id == id ==> !list[j].row.Live()
    ensures ListMatches(if k < |list| then RevokeEntry(list, k, at) else list, s[id := Revoked(s[id], at)])
  {
    var list' := if k < |list| then RevokeEntry(list, k, at) else list;
    var s' := s[id := Revoked(s[id], at)];
    forall j | 0 <= j < |list|
      ensures Describes(list'[j], s')
    {
      assert Describes(list[j], s);
    }
    RevokingMatches(list, s, list', s');
  }

  lemma LogoutEffect(e: Event, db: Db, id: SessionId)
    requires e.Logout? && FindSession(db, e.token) == Some(id)
    ensures Apply(e, db) == db.(sessions := db.sessions[id := Revoked(db.sessions[id], e.now)])
  {
    RunOne(RevokeSession(id, e.now), db);
  }

  lemma RevokeOneEffect(e: Event, db: Db)
    requires e.RevokeOne?
    ensures Apply(e, db) ==
      if e.session in db.sessions && db.sessions[e.session].userId == e.user && db.sessions[e.session].Live()
      then db.(sessions := db.sessions[e.session := Revoked(db.sessions[e.session], e.now)])
      else db
  {
    if e.session in db.sessions {
      RunOne(RevokeSession(e.session, e.now), db);
    }
  }

  lemma LogoutAllEffect(e: Event, db: Db)
    requires e.LogoutAll?
    ensures Apply(e, db) == db.(sessions := db.sessions + LiveOfUser(db.sessions, e.user, e.now))
  {
    RunOne(RevokeUser(e.user, e.now), db);
  }

  lemma LogoutMatches(f: Files, db: Db, e: Event)
    requires Simulated(f, db) && e.Logout?
    ensures ListMatches(FileStep(e, f).list, Apply(e, db).sessions) && Apply(e, db).users == db.users
  {
    FindAgrees(f, db, e.token);
    if FindSession(db, e.token).Some? {
      var id := FindSession(db, e.token).value;
      LogoutEffect(e, db, id);
      OneRevokedMatches(f.list, db.sessions, id, IndexOf(f.list, e.token), e.now);
    }
  }

  lemma RevokeOneMatches(f: Files, db: Db, e: Event)
    requires Simulated(f, db) && e.RevokeOne?
    ensures ListMatches(FileStep(e, f).list, Apply(e, db).sessions) && Apply(e, db).users == db.users
  {
    var s, id := db.sessions, e.session;
    RevokeOneEffect(e, db);
    forall j | 0 <= j < |f.list| ensures Describes(f.list[j], s) {}
    if id in s && s[id].userId == e.user && s[id].Live() {
      if exists k :: Selected(f.list, k, e.user, id) {
        var k :| Selected(f.list, k, e.user, id) && FileStep(e, f).list == RevokeEntry(f.list, k, e.now);
        OneRevokedMatches(f.list, s, id, k, e.now);
      } else {
        forall j | 0 <= j < |f.list| && f.list[j].id == id ensures !f.list[j].row.Live() {
          assert !Selected(f.list, j, e.user, id);
        }
        OneRevokedMatches(f.list, s, id, |f.list|, e.now);
      }
    } else {
      forall k: nat ensures !Selected(f.list, k, e.user, id) {
        if k < |f.list| { assert Describes(f.list[k], s); }
      }
    }
  }

  lemma LogoutAllMatches(f: Files, db: Db, e: Event)
    requires Simulated(f, db) && e.LogoutAll?
    ensures ListMatches(FileStep(e, f).list, Apply(e, db).sessions) && Apply(e, db).users == db.users
  {
    var list', s' := FileStep(e, f).list, Apply(e, db).sessions;
    LogoutAllEffect(e, db);
    forall k | 0 <= k < |list'|
      ensures Describes(list'[k], s')
    {
      assert Describes(f.list[k], db.sessions);
    }
    RevokingMatches(f.list, db.sessions, list', s');
  }

  lemma StartingMatches(list: seq<Entry>, s: map<SessionId, Session>, id: SessionId, row: Session)
    requires ListMatches(list, s) && id !in s && forall i :: i in s ==> s[i].family != row.family
    ensures ListMatches(list + [Entry(id, row)], s[id := row])
  {
    var list', s' := list + [Entry(id, row)], s[id := row];
    assert list'[|list|].id == id;
    forall k | 0 <= k < |list| ensures Describes(list'[k], s') && list[k].id != id {
      assert Describes(list[k], s);
    }
    forall i | i in s' && !Listed(list', i)
      ensures DeadIn(list', s'[i].family)
    {
      forall j | 0 <= j < |list| ensures list[j].id != i {
        assert list'[j].id == list[j].id;
      }
      assert !Listed(list, i);
      assert DeadIn(list, s[i].family);
    }
  }

  lemma RefusedLoginEffect(e: Event, db: Db)
    requires e.Login? && e.user in db.users && !LoginAccepted(db, e)
    ensures Apply(e, db) == db.(users := db.users[e.user := ChangeUser(db.users[e.user], LoginFailed(e.now))])
  {
    RunOne(UpdateUser(e.user, LoginFailed(e.now)), db);
  }

  lemma LoginMatches(f: Files, db: Db, e: Event)
    requires Simulated(f, db) && e.Login? && FreshFor(e, NamesIn(db))
    ensures ListMatches(FileStep(e, f).list, Apply(e, db).sessions) && Apply(e, db).users == FileStep(e, f).users
  {
    if LoginAccepted(db, e) {
      LoginEffect(e, db);
      NewNamesAreUnused(e, db);
      var started := Session(e.user, e.newHash, e.newFamily, e.now + REFRESH_TTL, None, None);
      StartingMatches(f.list, db.sessions, e.newId, started);
    } else if e.user in db.users {
      RefusedLoginEffect(e, db);
    }
  }

  lemma StepSimulated(f: Files, db: Db, e: Event)
    requires Simulated(f, db) && Shared(e) && FreshFor(e, NamesIn(db))
    ensures Simulated(FileStep(e, f), Apply(e, db))
  {
    ApplyKeepsConsistent(e, db);
    if e.Refresh? {
      RefreshMatches(f, db, e);
    } else if e.Login? {
      LoginMatches(f, db, e);
    } else if e.Logout? {
      LogoutMatches(f, db, e);
    } else if e.LogoutAll? {
      LogoutAllMatches(f, db, e);
    } else {
      RevokeOneMatches(f, db, e);
    }
  }

  // ----- runs -----

  ghost function FileReplay(log: seq<Event>, f: Files): Files
    requires forall e :: e in log ==> Shared(e)
  {
    if log == [] then f else FileStep(log[|log| - 1], FileReplay(log[..|log| - 1], f))
  }

  ghost predicate SharedRun(log: seq<Event>) {
    forall e :: e in log ==> Shared(e)
  }

  /** The tables simulate the list over every common sequence of requests: what is live
      in the list is live in the tables. */
  lemma {:induction false} TablesSimulateList(log: seq<Event>, f: Files, db: Db)
    requires SharedRun(log) && FreshRun(log, db) && Simulated(f, db)
    ensures Simulated(FileReplay(log, f), Replay(log, db))
  {
    if log != [] {
      var init := log[..|log| - 1];
      TablesSimulateList(init, f, db);
      StaysFresh(log, db);
      StepSimulated(FileReplay(init, f), Replay(init, db), log[|log| - 1]);
    }
  }

  /** Every refresh the list grants during a run, the tables grant too. */
  lemma ListGrantsAreTableGrants(log: seq<Event>, f: Files, db: Db, i: nat)
    requires SharedRun(log) && FreshRun(log, db) && Simulated(f, db) && i < |log| && log[i].Refresh?
    requires FileAccepts(FileReplay(log[..i], f), log[i].token, log[i].at)
    ensures Accepts(At(log, db, i), log[i])
  {
    FreshPrefix(log, db, i);
    TablesSimulateList(log[..i], f, db);
    FileAcceptsImpliesTableAccepts(FileReplay(log[..i], f), At(log, db, i), log[i]);
  }

  // ----- equality without replays -----

  /** The list knows every row, and the same rows are live in both. */
  ghost predicate Exact(list: seq<Entry>, s: map<SessionId, Session>) {
    && (forall id :: id in s ==> Listed(list, id))
    && (forall k :: 0 <= k < |list| ==> list[k].id in s && list[k].row.Live() == s[list[k].id].Live())
  }

  /** The token presented was rotated before. */
  ghost predicate Replays(e: Event, db: Db) {
    e.Refresh? && FindSession(db, e.token).Some? &&
      var s := db.sessions[FindSession(db, e.token).value]; s.revokedAt.Some? && s.replacedBy.Some?
  }

  ghost predicate FamilyAlive(s: map<SessionId, Session>, f: Family) {
    exists id :: id in s && s[id].family == f && s[id].Live()
  }

  /** The token presented was rotated before, and its family still has a live session. */
  ghost predicate Divides(e: Event, db: Db) {
    Replays(e, db) && FamilyAlive(db.sessions, db.sessions[FindSession(db, e.token).value].family)
  }

  lemma ExtendedIsListed(list: seq<Entry>, list': seq<Entry>)
    requires |list| <= |list'| && forall k :: 0 <= k < |list| ==> list'[k].id == list[k].id
    ensures forall id :: Listed(list, id) ==> Listed(list', id)
  {
    forall id | Listed(list, id) ensures Listed(list', id) {
      var k :| 0 <= k < |list| && list[k].id == id;
      assert list'[k].id == id;
    }
  }

  lemma ExactAccepts(f: Files, db: Db, e: Event)
    requires Simulated(f, db) && Exact(f.list, db.sessions) && e.Refresh?
    ensures FileAccepts(f, e.token, e.at) <==> Accepts(db, e)
    ensures IndexOf(f.list, e.token) < |f.list| <==> FindSession(db, e.token).Some?
  {
    FindAgrees(f, db, e.token);
    var k := IndexOf(f.list, e.token);
    if k < |f.list| {
      assert Describes(f.list[k], db.sessions);
    }
  }

  lemma ExactRotation(f: Files, db: Db, e: Event)
    requires Simulated(f, db) && Exact(f.list, db.sessions) && e.Refresh? && Shared(e) && FreshFor(e, NamesIn(db))
    requires FileAccepts(f, e.token, e.at)
    ensures Exact(FileRefresh(f, e.at, e.token, e.newId, e.newHash), Apply(e, db).sessions)
  {
    FileAcceptsImpliesTableAccepts(f, db, e);
    FindAgrees(f, db, e.token);
    RotationEffect(e, db);
    var k := IndexOf(f.list, e.token);
    assert Describes(f.list[k], db.sessions);
    ExactRotating(f.list, db.sessions, k, e);
  }

  lemma ExactRotating(list: seq<Entry>, s: map<SessionId, Session>, k: nat, e: Event)
    requires Exact(list, s) && DistinctIds(list) && k < |list| && e.Refresh? && e.newId !in s && list[k].id in s
    ensures Exact(RotatedList(list, k, e.at, e.newId, e.newHash), Rotated(s, list[k].id, e.now, e.newId, e.newHash))
  {
    var list' := RotatedList(list, k, e.at, e.newId, e.newHash);
    ExtendedIsListed(list, list');
    assert list'[|list|].id == e.newId;
    assert Listed(list', e.newId);
  }

  lemma ExactKilling(list: seq<Entry>, s: map<SessionId, Session>, fam: Family, at: Time, now: Time)
    requires Exact(list, s) && DescribesAll(list, s)
    ensures Exact(KillFamily(list, fam, at), s + LiveOfFamily(s, fam, now))
  {
    var list', s' := KillFamily(list, fam, at), s + LiveOfFamily(s, fam, now);
    ExtendedIsListed(list, list');
    forall k | 0 <= k < |list'|
      ensures list'[k].id in s' && list'[k].row.Live() == s'[list'[k].id].Live()
    {
      assert Describes(list[k], s);
    }
  }

  lemma RefusalRevokesFamily(e: Event, db: Db, id: SessionId)
    requires e.Refresh? && FindSession(db, e.token) == Some(id) && !Accepts(db, e) && !Replays(e, db)
    ensures Apply(e, db).sessions == db.sessions + LiveOfFamily(db.sessions, db.sessions[id].family, e.now)
  {
    RunOne(RevokeFamily(db.sessions[id].family, e.now), db);
  }

  lemma ExactKillingDead(list: seq<Entry>, s: map<SessionId, Session>, fam: Family, at: Time)
    requires Exact(list, s) && DescribesAll(list, s) && !FamilyAlive(s, fam)
    ensures Exact(KillFamily(list, fam, at), s)
  {
    var list' := KillFamily(list, fam, at);
    ExtendedIsListed(list, list');
    forall k | 0 <= k < |list'|
      ensures list'[k].id in s && list'[k].row.Live() == s[list'[k].id].Live()
    {
      assert Describes(list[k], s);
    }
  }

  lemma ExactRefusal(f: Files, db: Db, e: Event)
    requires Simulated(f, db) && Exact(f.list, db.sessions) && e.Refresh? && Shared(e)
    requires !FileAccepts(f, e.token, e.at) && !Divides(e, db)
    ensures Exact(FileRefresh(f, e.at, e.token, e.newId, e.newHash), Apply(e, db).sessions)
  {
    ExactAccepts(f, db, e);
    FindAgrees(f, db, e.token);
    if FindSession(db, e.token).Some? {
      var id := FindSession(db, e.token).value;
      assert Describes(f.list[IndexOf(f.list, e.token)], db.sessions);
      if Replays(e, db) {
        ExactKillingDead(f.list, db.sessions, db.sessions[id].family, e.at);
      } else {
        RefusalRevokesFamily(e, db, id);
        ExactKilling(f.list, db.sessions, db.sessions[id].family, e.at, e.now);
      }
    }
  }

  lemma ExactOneRevoked(list: seq<Entry>, s: map<SessionId, Session>, k: nat, at: Time)
    requires Exact(list, s) && DistinctIds(list) && k < |list|
    ensures Exact(RevokeEntry(list, k, at), s[list[k].id := Revoked(s[list[k].id], at)])
  {
    ExtendedIsListed(list, RevokeEntry(list, k, at));
  }

  lemma ExactLogout(f: Files, db: Db, e: Event)
    requires Simulated(f, db) && Exact(f.list, db.sessions) && e.Logout?
    ensures Exact(FileStep(e, f).list, Apply(e, db).sessions)
  {
    FindAgrees(f, db, e.token);
    if FindSession(db, e.token).Some? {
      LogoutEffect(e, db, FindSession(db, e.token).value);
      ExactOneRevoked(f.list, db.sessions, IndexOf(f.list, e.token), e.now);
    }
  }

  lemma ExactRevokeOne(f: Files, db: Db, e: Event)
    requires Simulated(f, db) && Exact(f.list, db.sessions) && e.RevokeOne?
    ensures Exact(FileStep(e, f).list, Apply(e, db).sessions)
  {
    var s, id := db.sessions, e.session;
    RevokeOneEffect(e, db);
    forall j | 0 <= j < |f.list| ensures Describes(f.list[j], s) {}
    if id in s && s[id].userId == e.user && s[id].Live() {
      assert Listed(f.list, id);
      var j :| 0 <= j < |f.list| && f.list[j].id == id;
      assert Describes(f.list[j], s) && Selected(f.list, j, e.user, id);
      SelectedOnce(f, e, j);
      ExactOneRevoked(f.list, s, j, e.now);
    } else {
      forall k: nat ensures !Selected(f.list, k, e.user, id) {
        if k < |f.list| { assert Describes(f.list[k], s); }
      }
    }
  }

  lemma SelectedOnce(f: Files, e: Event, j: nat)
    requires e.RevokeOne? && DistinctIds(f.list) && Selected(f.list, j, e.user, e.session)
    ensures FileStep(e, f).list == RevokeEntry(f.list, j, e.now)
  {
    assert forall k: nat :: Selected(f.list, k, e.user, e.session) ==> k == j;
  }

  lemma ExactLogoutAll(f: Files, db: Db, e: Event)
    requires Simulated(f, db) && Exact(f.list, db.sessions) && e.LogoutAll?
    ensures Exact(FileStep(e, f).list, Apply(e, db).sessions)
  {
    LogoutAllEffect(e, db);
    var list', s' := FileStep(e, f).list, Apply(e, db).sessions;
    ExtendedIsListed(f.list, list');
    forall k | 0 <= k < |list'|
      ensures list'[k].id in s' && list'[k].row.Live() == s'[list'[k].id].Live()
    {
      assert Describes(f.list[k], db.sessions);
    }
  }

  lemma ExactLogin(f: Files, db: Db, e: Event)
    requires Simulated(f, db) && Exact(f.list, db.sessions) && e.Login? && FreshFor(e, NamesIn(db))
    ensures Exact(FileStep(e, f).list, Apply(e, db).sessions)
  {
    var list' := FileStep(e, f).list;
    ExtendedIsListed(f.list, list');
    if LoginAccepted(db, e) {
      LoginEffect(e, db);
      assert list'[|f.list|].id == e.newId;
      assert Listed(list', e.newId);
    } else if e.user in db.users {
      RefusedLoginEffect(e, db);
    }
  }

  lemma ExactStep(f: Files, db: Db, e: Event)
    requires Simulated(f, db) && Exact(f.list, db.sessions) && Shared(e) && !Divides(e, db) && FreshFor(e, NamesIn(db))
    ensures Exact(FileStep(e, f).list, Apply(e, db).sessions)
  {
    if e.Refresh? {
      if FileAccepts(f, e.token, e.at) {
        ExactRotation(f, db, e);
      } else {
        ExactRefusal(f, db, e);
      }
    } else if e.Login? {
      ExactLogin(f, db, e);
    } else if e.Logout? {
      ExactLogout(f, db, e);
    } else if e.LogoutAll? {
      ExactLogoutAll(f, db, e);
    } else {
      ExactRevokeOne(f, db, e);
    }
  }

  lemma KilledDiffers(list: seq<Entry>, s: map<SessionId, Session>, fam: Family, at: Time)
    requires Exact(list, s) && DescribesAll(list, s) && FamilyAlive(s, fam)
    ensures !Exact(KillFamily(list, fam, at), s)
  {
    var id :| id in s && s[id].family == fam && s[id].Live();
    assert Listed(list, id);
    var k :| 0 <= k < |list| && list[k].id == id;
    assert Describes(list[k], s);
    assert KillFamily(list, fam, at)[k] == KillEntry(list[k], fam, at);
  }

  lemma ReplayKillsFamily(f: Files, db: Db, e: Event)
    requires Simulated(f, db) && Exact(f.list, db.sessions) && Replays(e, db)
    ensures FileRefresh(f, e.at, e.token, e.newId, e.newHash) ==
      KillFamily(f.list, db.sessions[FindSession(db, e.token).value].family, e.at)
  {
    ExactAccepts(f, db, e);
    FindAgrees(f, db, e.token);
    assert Describes(f.list[IndexOf(f.list, e.token)], db.sessions);
  }

  /** A replay that meets a live successor sets the two back ends apart at once. */
  lemma DividingStep(f: Files, db: Db, e: Event)
    requires Simulated(f, db) && Exact(f.list, db.sessions) && Shared(e) && Divides(e, db)
    ensures !Exact(FileStep(e, f).list, Apply(e, db).sessions)
  {
    var fam := db.sessions[FindSession(db, e.token).value].family;
    ReplayKillsFamily(f, db, e);
    KilledDiffers(f.list, db.sessions, fam, e.at);
    assert Apply(e, db) == db;
  }

  lemma StepSetsApart(f: Files, db: Db, e: Event)
    requires Simulated(f, db) && Exact(f.list, db.sessions) && Shared(e) && FreshFor(e, NamesIn(db))
    ensures Exact(FileStep(e, f).list, Apply(e, db).sessions) <==> !Divides(e, db)
  {
    if Divides(e, db) {
      DividingStep(f, db, e);
    } else {
      ExactStep(f, db, e);
    }
  }

  ghost predicate SameLive(log: seq<Event>, f: Files, db: Db, i: nat)
    requires SharedRun(log) && i <= |log|
  {
    Exact(FileReplay(log[..i], f).list, At(log, db, i).sessions)
  }

  lemma SameLiveStep(log: seq<Event>, f: Files, db: Db, i: nat)
    requires SharedRun(log) && FreshRun(log, db) && Simulated(f, db) && i < |log| && SameLive(log, f, db, i)
    ensures SameLive(log, f, db, i + 1) <==> !Divides(log[i], At(log, db, i))
  {
    FreshAt(log, db, i);
    FreshPrefix(log, db, i);
    TablesSimulateList(log[..i], f, db);
    ReplayStep(log, db, i);
    assert log[..i + 1][..i] == log[..i];
    var g, d := FileReplay(log[..i], f), At(log, db, i);
    StepSetsApart(g, d, log[i]);
  }

  lemma {:induction false} SameLiveWhileUndivided(log: seq<Event>, f: Files, db: Db, i: nat)
    requires SharedRun(log) && FreshRun(log, db) && Simulated(f, db) && Exact(f.list, db.sessions) && i <= |log|
    requires forall j :: 0 <= j < i ==> !Divides(log[j], At(log, db, j))
    ensures SameLive(log, f, db, i)
  {
    if i > 0 {
      SameLiveWhileUndivided(log, f, db, i - 1);
      SameLiveStep(log, f, db, i - 1);
    }
  }

  /** The two back ends have the same live sessions throughout a run if and only if no
      rotated token is presented again while its family lives. */
  lemma SameLiveSessionsExactly(log: seq<Event>, f: Files, db: Db)
    requires SharedRun(log) && FreshRun(log, db) && Simulated(f, db) && Exact(f.list, db.sessions)
    ensures (forall i :: 0 <= i <= |log| ==> SameLive(log, f, db, i)) <==>
            (forall i :: 0 <= i < |log| ==> !Divides(log[i], At(log, db, i)))
  {
    if forall i :: 0 <= i <= |log| ==> SameLive(log, f, db, i) {
      forall i | 0 <= i < |log| ensures !Divides(log[i], At(log, db, i)) {
        assert SameLive(log, f, db, i) && SameLive(log, f, db, i + 1);
        SameLiveStep(log, f, db, i);
      }
    } else {
      var i :| 0 <= i <= |log| && !SameLive(log, f, db, i);
      if forall j :: 0 <= j < |log| ==> !Divides(log[j], At(log, db, j)) {
        SameLiveWhileUndivided(log, f, db, i);
      }
    }
  }

  /** Without replays of rotated tokens the two back ends have the same live sessions. */
  lemma SameLiveSessionsWithoutReplays(log: seq<Event>, f: Files, db: Db)
    requires SharedRun(log) && FreshRun(log, db) && Simulated(f, db) && Exact(f.list, db.sessions)
    requires forall i :: 0 <= i < |log| ==> !Replays(log[i], At(log, db, i))
    ensures Exact(FileReplay(log, f).list, Replay(log, db).sessions)
  {
    SameLiveWhileUndivided(log, f, db, |log|);
    assert log[..|log|] == log;
  }

  // ----- an instance -----

  const PLAIN_USER := User(0, 1, USER, 1, 1, ACTIVE, None, 0, None, false, None)
  const ROTATED := Session(1, 10, 5, 100, Some(1), Some(2))
  const SUCCESSOR := Session(1, 11, 5, 100, None, None)

  function RotatedFiles(): Files {
    Files(map[1 := PLAIN_USER], [Entry(1, ROTATED), Entry(2, SUCCESSOR)])
  }

  function RotatedDb(): Db {
    Db(map[1 := PLAIN_USER], map[1 := ROTATED, 2 := SUCCESSOR], map[], map[], map[])
  }

  lemma RotatedAlike()
    ensures Simulated(RotatedFiles(), RotatedDb()) && Exact(RotatedFiles().list, RotatedDb().sessions)
  {
    var list := RotatedFiles().list;
    assert list[0].id == 1 && list[1].id == 2;
    assert Listed(list, 1) && Listed(list, 2);
  }

  function ReplayRequest(): Event {
    Refresh(50, 50, 10, 3, 12)
  }

  lemma ReplayDivides()
    ensures Divides(ReplayRequest(), RotatedDb()) && FreshFor(ReplayRequest(), NamesIn(RotatedDb()))
  {
    var db := RotatedDb();
    FindIsUnique(db, 1, 10);
    assert FamilyAlive(db.sessions, 5) by {
      assert db.sessions[2].Live();
    }
  }

  /** The difference is real: replaying a rotated token ends its family in the file
      path, and only there. */
  lemma ReplayDiffers()
    ensures exists f: Files, db: Db, e: Event ::
      Simulated(f, db) && Exact(f.list, db.sessions) && Shared(e) && FreshFor(e, NamesIn(db))
      && !Exact(FileStep(e, f).list, Apply(e, db).sessions)
  {
    RotatedAlike();
    ReplayDivides();
    DividingStep(RotatedFiles(), RotatedDb(), ReplayRequest());
  }
}
