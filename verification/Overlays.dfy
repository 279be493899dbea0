/**
 The private writes of an open transaction.  Under READ COMMITTED a statement sees the
 committed rows overlaid with the transaction's own writes, and committing makes the
 overlay the new committed database.
 */
module Overlays {
  import opened Basics
  import opened AuthModel
  import opened Sessions
  import opened SessionRuns
  import opened Administrators

  datatype Writes = TxWrites(
    users: map<UserId, User>, sessions: map<SessionId, Session>, resets: map<Hash, OneTimeToken>,
    gone: set<UserId>, noMfa: set<UserId>)

  const NOTHING := TxWrites(map[], map[], map[], {}, {})

  /** Committed rows overlaid with written ones, without those of deleted users. */
  ghost function LaySessions(
      s: map<SessionId, Session>, w: map<SessionId, Session>, gone: set<UserId>): map<SessionId, Session>
  {
    map i | i in s.Keys + w.Keys && (if i in w then w[i] else s[i]).userId !in gone :: if i in w then w[i] else s[i]
  }

  ghost function LayResets(
      s: map<Hash, OneTimeToken>, w: map<Hash, OneTimeToken>, gone: set<UserId>): map<Hash, OneTimeToken>
  {
    map h | h in s.Keys + w.Keys && (if h in w then w[h] else s[h]).userId !in gone :: if h in w then w[h] else s[h]
  }

  ghost function LayCodes(s: map<Hash, RecoveryCode>, gone: set<UserId>): map<Hash, RecoveryCode> {
    map h | h in s && s[h].userId !in gone :: s[h]
  }

  /** What a transaction with these writes sees. */
  ghost function Overlay(db: Db, w: Writes): Db {
    Db((db.users + w.users) - w.gone,
       LaySessions(db.sessions, w.sessions, w.gone),
       LayResets(db.resets, w.resets, w.gone),
       LayCodes(db.codes, w.gone + w.noMfa),
       db.secrets - (w.gone + w.noMfa))
  }

  /** The statements the transactional routes send. */
  predicate TxStmt(s: Stmt) {
    !s.InsertUser? && !s.RevokeSession? && !s.InsertReset? && !s.EnrolMfa? && !s.OfferMfa?
  }

  /** One statement of an open transaction: it reads `view` and adds rows to `w`. */
  ghost function Exec(s: Stmt, view: Db, w: Writes): Writes
    requires TxStmt(s) && Applicable(s, view)
  {
    match s
    case UpdateUser(u, c) => w.(users := w.users[u := ChangeUser(view.users[u], c)])
    case DropUser(u) => w.(gone := w.gone + {u})
    case InsertSession(id, row) => w.(sessions := w.sessions[id := row])
    case RotateSession(id, at, next) =>
      w.(sessions := w.sessions[id := view.sessions[id].(revokedAt := Some(at), replacedBy := Some(next))])
    case RevokeFamily(f, at) => w.(sessions := w.sessions + LiveOfFamily(view.sessions, f, at))
    case RevokeUser(u, at) => w.(sessions := w.sessions + LiveOfUser(view.sessions, u, at))
    case UseResets(u, at) => w.(resets := w.resets + UnusedOf(view.resets, u, at))
    case DropMfa(u) => w.(noMfa := w.noMfa + {u})
    case _ => w
  }

  lemma OverlayOfNothing(db: Db)
    ensures Overlay(db, NOTHING) == db
  {
    assert LaySessions(db.sessions, map[], {}) == db.sessions;
    assert LayResets(db.resets, map[], {}) == db.resets;
    assert LayCodes(db.codes, {}) == db.codes;
  }

  lemma LayOne(s: map<SessionId, Session>, w: map<SessionId, Session>, gone: set<UserId>, id: SessionId, row: Session)
    requires row.userId !in gone
    ensures LaySessions(s, w[id := row], gone) == LaySessions(s, w, gone)[id := row]
  {}

  lemma LayMany(s: map<SessionId, Session>, w: map<SessionId, Session>, gone: set<UserId>, m: map<SessionId, Session>)
    requires forall i :: i in m ==> m[i].userId !in gone
    ensures LaySessions(s, w + m, gone) == LaySessions(s, w, gone) + m
  {}

  lemma LayManyResets(
      s: map<Hash, OneTimeToken>, w: map<Hash, OneTimeToken>, gone: set<UserId>, m: map<Hash, OneTimeToken>)
    requires forall h :: h in m ==> m[h].userId !in gone
    ensures LayResets(s, w + m, gone) == LayResets(s, w, gone) + m
  {}

  lemma LayWithout(db: Db, w: Writes, u: UserId)
    ensures LaySessions(db.sessions, w.sessions, w.gone + {u})
         == SessionsNotOf(LaySessions(db.sessions, w.sessions, w.gone), u)
    ensures LayResets(db.resets, w.resets, w.gone + {u})
         == ResetsNotOf(LayResets(db.resets, w.resets, w.gone), u)
  {}

  lemma LayCodesWithout(codes: map<Hash, RecoveryCode>, gone: set<UserId>, u: UserId)
    ensures LayCodes(codes, gone + {u}) == CodesNotOf(LayCodes(codes, gone), u)
  {}

  lemma OverlayRevoke(s: Stmt, db: Db, w: Writes)
    requires s.RevokeFamily? || s.RevokeUser?
    ensures Overlay(db, Exec(s, Overlay(db, w), w)) == Do(s, Overlay(db, w))
  {
    var v := Overlay(db, w).sessions;
    LayMany(db.sessions, w.sessions, w.gone,
            if s.RevokeFamily? then LiveOfFamily(v, s.family, s.at) else LiveOfUser(v, s.user, s.at));
  }

  lemma OverlayDrop(s: Stmt, db: Db, w: Writes)
    requires s.DropUser? || s.DropMfa?
    requires Applicable(s, Overlay(db, w))
    ensures Overlay(db, Exec(s, Overlay(db, w), w)) == Do(s, Overlay(db, w))
  {
    LayWithout(db, w, s.user);
    LayCodesWithout(db.codes, w.gone + w.noMfa, s.user);
    assert w.gone + {s.user} + w.noMfa == w.gone + w.noMfa + {s.user} == w.gone + (w.noMfa + {s.user});
    assert (db.users + w.users) - (w.gone + {s.user}) == (db.users + w.users) - w.gone - {s.user};
    assert db.secrets - (w.gone + w.noMfa + {s.user}) == db.secrets - (w.gone + w.noMfa) - {s.user};
  }

  lemma OverlayUser(s: Stmt, db: Db, w: Writes)
    requires s.UpdateUser? && Applicable(s, Overlay(db, w))
    ensures Overlay(db, Exec(s, Overlay(db, w), w)) == Do(s, Overlay(db, w))
  {
    var row := ChangeUser(Overlay(db, w).users[s.user], s.change);
    assert (db.users + w.users[s.user := row]) - w.gone == ((db.users + w.users) - w.gone)[s.user := row];
  }

  lemma OverlayResets(s: Stmt, db: Db, w: Writes)
    requires s.UseResets?
    ensures Overlay(db, Exec(s, Overlay(db, w), w)) == Do(s, Overlay(db, w))
  {
    LayManyResets(db.resets, w.resets, w.gone, UnusedOf(Overlay(db, w).resets, s.user, s.at));
  }

  /** Executing against the overlay is the statement's effect on what the transaction sees. */
  lemma OverlayExec(s: Stmt, db: Db, w: Writes)
    requires TxStmt(s) && Applicable(s, Overlay(db, w))
    ensures Overlay(db, Exec(s, Overlay(db, w), w)) == Do(s, Overlay(db, w))
  {
    match s
    case InsertSession(id, row) => LayOne(db.sessions, w.sessions, w.gone, id, row);
    case RotateSession(id, at, next) =>
      LayOne(db.sessions, w.sessions, w.gone, id,
             Overlay(db, w).sessions[id].(revokedAt := Some(at), replacedBy := Some(next)));
    case RevokeFamily(_, _) => OverlayRevoke(s, db, w);
    case RevokeUser(_, _) => OverlayRevoke(s, db, w);
    case DropUser(_) => OverlayDrop(s, db, w);
    case DropMfa(_) => OverlayDrop(s, db, w);
    case UpdateUser(_, _) => OverlayUser(s, db, w);
    case UseResets(_, _) => OverlayResets(s, db, w);
    case RequireAdmins(_, _) =>
  }

  // ----- the writes of a program -----

  /** Statement s raises no exception and takes the private writes from w to w'. */
  ghost predicate Executes(s: Stmt, db: Db, w: Writes, w': Writes) {
    TxStmt(s) && Applicable(s, Overlay(db, w)) && w' == Exec(s, Overlay(db, w), w)
  }

  ghost predicate StepAt(ws: seq<Writes>, p: seq<Stmt>, db: Db, k: nat)
    requires k < |p| && k + 1 < |ws|
  {
    Executes(p[k], db, ws[k], ws[k + 1])
  }

  /** The private writes before and after each of the statements executed so far. */
  ghost predicate IsHistory(ws: seq<Writes>, p: seq<Stmt>, db: Db) {
    && 0 < |ws| <= |p| + 1 && ws[0] == NOTHING
    && forall k :: 0 <= k < |ws| - 1 ==> StepAt(ws, p, db, k)
  }

  lemma RunFirst(p: seq<Stmt>, k: nat, before: Db, after: Db)
    requires k < |p| && Applicable(p[k], before) && Do(p[k], before) == after
    ensures Run(p[k..], before) == Run(p[k + 1..], after)
  {
    assert p[k..][0] == p[k] && p[k..][1..] == p[k + 1..];
  }

  lemma RunNext(p: seq<Stmt>, k: nat, db: Db, w: Writes, w': Writes)
    requires k < |p| && Executes(p[k], db, w, w')
    ensures Run(p[k..], Overlay(db, w)) == Run(p[k + 1..], Overlay(db, w'))
  {
    OverlayExec(p[k], db, w);
    RunFirst(p, k, Overlay(db, w), Overlay(db, w'));
  }

  lemma NothingLeft(p: seq<Stmt>, db: Db)
    ensures Run(p[|p|..], db) == Some(db)
  {}

  lemma {:induction false} OverlayRunFrom(ws: seq<Writes>, p: seq<Stmt>, k: nat, db: Db)
    requires IsHistory(ws, p, db) && |ws| == |p| + 1 && k <= |p|
    ensures Run(p[k..], Overlay(db, ws[k])) == Some(Overlay(db, ws[|p|]))
    decreases |p| - k
  {
    if k < |p| {
      assert StepAt(ws, p, db, k);
      RunNext(p, k, db, ws[k], ws[k + 1]);
      OverlayRunFrom(ws, p, k + 1, db);
    } else {
      NothingLeft(p, Overlay(db, ws[k]));
    }
  }

  /** Executed to the end, the overlay is the atomic run of the program. */
  lemma OverlayIsRun(ws: seq<Writes>, p: seq<Stmt>, db: Db)
    requires IsHistory(ws, p, db) && |ws| == |p| + 1
    ensures Run(p, db) == Some(Overlay(db, ws[|p|]))
  {
    OverlayRunFrom(ws, p, 0, db);
    OverlayOfNothing(db);
    assert p[0..] == p;
  }

  // ----- agreement on one user's rows -----

  predicate SameRow<T(==)>(m: map<UserId, T>, m': map<UserId, T>, u: UserId) {
    if u in m then u in m' && m'[u] == m[u] else u !in m'
  }

  ghost predicate SessionsWithin(m: map<SessionId, Session>, m': map<SessionId, Session>, u: UserId) {
    forall i :: i in m && m[i].userId == u ==> i in m' && m'[i] == m[i]
  }

  ghost predicate ResetsWithin(m: map<Hash, OneTimeToken>, m': map<Hash, OneTimeToken>, u: UserId) {
    forall h :: h in m && m[h].userId == u ==> h in m' && m'[h] == m[h]
  }

  ghost predicate CodesWithin(m: map<Hash, RecoveryCode>, m': map<Hash, RecoveryCode>, u: UserId) {
    forall h :: h in m && m[h].userId == u ==> h in m' && m'[h] == m[h]
  }

  /** The two databases have the same rows for user u. */
  ghost predicate Agree(db: Db, db': Db, u: UserId) {
    && SameRow(db.users, db'.users, u) && SameRow(db.secrets, db'.secrets, u)
    && SessionsWithin(db.sessions, db'.sessions, u) && SessionsWithin(db'.sessions, db.sessions, u)
    && ResetsWithin(db.resets, db'.resets, u) && ResetsWithin(db'.resets, db.resets, u)
    && CodesWithin(db.codes, db'.codes, u) && CodesWithin(db'.codes, db.codes, u)
  }

  lemma AgreeTransitive(a: Db, b: Db, c: Db, u: UserId)
    requires Agree(a, b, u) && Agree(b, c, u)
    ensures Agree(a, c, u)
  {}

  /** No row of user u is named by the statement. */
  ghost predicate Spares(s: Stmt, db: Db, u: UserId) {
    match s
    case InsertUser(v, _) => v != u
    case UpdateUser(v, _) => v != u
    case DropUser(v) => v != u
    case InsertSession(i, row) => row.userId != u
    case RotateSession(i, _, _) => i in db.sessions && db.sessions[i].userId != u
    case RevokeSession(i, _) => i in db.sessions && db.sessions[i].userId != u
    case RevokeFamily(f, _) => forall i :: i in db.sessions && db.sessions[i].family == f ==> db.sessions[i].userId != u
    case RevokeUser(v, _) => v != u
    case InsertReset(_, t) => t.userId != u
    case UseResets(v, _) => v != u
    case DropMfa(v) => v != u
    case OfferMfa(v, _) => v != u
    case EnrolMfa(v, _) => v != u
    case RequireAdmins(_, _) => true
  }

  lemma SparedSessions(s: Stmt, db: Db, u: UserId)
    requires Applicable(s, db) && Spares(s, db, u)
    ensures SessionsWithin(db.sessions, Do(s, db).sessions, u) && SessionsWithin(Do(s, db).sessions, db.sessions, u)
  {}

  lemma SparedTokens(s: Stmt, db: Db, u: UserId)
    requires Applicable(s, db) && Spares(s, db, u)
    ensures ResetsWithin(db.resets, Do(s, db).resets, u) && ResetsWithin(Do(s, db).resets, db.resets, u)
    ensures CodesWithin(db.codes, Do(s, db).codes, u) && CodesWithin(Do(s, db).codes, db.codes, u)
  {}

  lemma SparedAgrees(s: Stmt, db: Db, u: UserId)
    requires Applicable(s, db) && Spares(s, db, u)
    ensures Agree(db, Do(s, db), u)
  {
    SparedSessions(s, db, u);
    SparedTokens(s, db, u);
  }

  /** The user a handler works for; it touches nobody else's rows. */
  ghost function TargetOf(e: Event, db: Db): Option<UserId> {
    match e
    case Refresh(_, _, t, _, _) =>
      (match FindSession(db, t) case None => None case Some(id) => Some(db.sessions[id].userId))
    case Logout(_, t) =>
      (match FindSession(db, t) case None => None case Some(id) => Some(db.sessions[id].userId))
    case ResetPassword(now, t, _) => if ResetUsable(db, t, now) then Some(db.resets[t].userId) else None
    case AdminRevokeSessions(_, u) => Known(db, u)
    case AdminPatch(_, u, _, _) => Known(db, u)
    case AdminDelete(_, u) => Known(db, u)
    case AdminResetMfa(_, u) => Known(db, u)
    case AdminUnlock(_, u) => Known(db, u)
    case CreateUser(_, u, _) => Some(u)
    case Login(_, u, _, _, _, _) => Some(u)
    case LogoutAll(_, u) => Some(u)
    case RevokeOne(_, u, _) => Some(u)
    case RetireResets(_, u, _) => Some(u)
    case IssueReset(_, u, _, _) => Some(u)
    case VerifyEmail(_, u) => Some(u)
    case BeginMfa(_, u, _) => Some(u)
    case ConfirmMfa(_, u, _, _) => Some(u)
  }

  function Known(db: Db, u: UserId): Option<UserId> {
    if u in db.users then Some(u) else None
  }

  lemma FamilyHasOneOwner(db: Db, i: SessionId, j: SessionId)
    requires Valid(db) && i in db.sessions && j in db.sessions && db.sessions[i].family == db.sessions[j].family
    ensures db.sessions[i].userId == db.sessions[j].userId
  {
    var chains :| ChainsOf(db.sessions, chains);
    var _ := Member(db.sessions, chains, i);
    var _ := Member(db.sessions, chains, j);
  }

  lemma NoTargetNoEffect(e: Event, db: Db)
    requires TargetOf(e, db).None?
    ensures Program(e, db) == [] && Apply(e, db) == db
  {}

  lemma SparedRun(p: seq<Stmt>, db: Db, u: UserId)
    requires Run(p, db).Some? && |p| <= 1 && forall s :: s in p ==> Spares(s, db, u)
    ensures Agree(db, Run(p, db).value, u)
  {
    if p != [] {
      assert p == [p[0]];
      RunOne(p[0], db);
      SparedAgrees(p[0], db, u);
    }
  }

  lemma SparedPair(a: Stmt, b: Stmt, db: Db, u: UserId)
    requires Run([a, b], db).Some?
    requires Spares(a, db, u) && (Applicable(a, db) ==> Spares(b, Do(a, db), u))
    ensures Agree(db, Run([a, b], db).value, u)
  {
    RunConcat([a], [b], db);
    RunOne(a, db);
    RunOne(b, Do(a, db));
    assert [a, b] == [a] + [b];
    SparedAgrees(a, db, u);
    SparedAgrees(b, Do(a, db), u);
    AgreeTransitive(db, Do(a, db), Do(b, Do(a, db)), u);
  }

  lemma RefreshTouchesOwner(e: Event, db: Db, u: UserId)
    requires Valid(db) && e.Refresh? && e.newId !in db.sessions && TargetOf(e, db) != Some(u) && Commits(e, db)
    ensures Agree(db, Apply(e, db), u)
  {
    if FindSession(db, e.token).Some? {
      var id := FindSession(db, e.token).value;
      if Accepts(db, e) {
        SparedPair(Program(e, db)[0], Program(e, db)[1], db, u);
      } else {
        forall i | i in db.sessions && db.sessions[i].family == db.sessions[id].family
          ensures db.sessions[i].userId != u
        {
          FamilyHasOneOwner(db, i, id);
        }
        SparedRun(Program(e, db), db, u);
      }
    }
  }

  lemma GuardedTouchesTarget(e: Event, db: Db, u: UserId)
    requires Guarded(e) && e.user in db.users && e.user != u
    ensures Agree(db, Apply(e, db), u)
  {
    GuardedRollsBack(e, db);
    var w := Administrators.Writes(e, db.users[e.user]);
    if |w| == 1 {
      SparedRun(w, db, u);
    } else {
      assert w == [w[0], w[1]];
      SparedPair(w[0], w[1], db, u);
    }
  }

  lemma ResetTouchesOwner(e: Event, db: Db, u: UserId)
    requires e.ResetPassword? && ResetUsable(db, e.resetToken, e.now) && db.resets[e.resetToken].userId != u
    ensures Agree(db, Apply(e, db), u)
  {
    ResetEffect(e, db);
  }

  lemma PlainTouchesTarget(e: Event, db: Db, u: UserId)
    requires !e.Refresh? && !e.ResetPassword? && !Guarded(e) && TargetOf(e, db) != Some(u) && Commits(e, db)
    ensures Agree(db, Apply(e, db), u)
  {
    var p := Program(e, db);
    if |p| == 2 {
      assert p == [p[0], p[1]];
      SparedPair(p[0], p[1], db, u);
    } else {
      SparedRun(p, db, u);
    }
  }

  /** A handler leaves the rows of every user but its target alone. */
  lemma TouchesOnlyTarget(e: Event, db: Db, u: UserId)
    requires Valid(db) && FreshFor(e, NamesIn(db)) && TargetOf(e, db) != Some(u)
    ensures Agree(db, Apply(e, db), u)
  {
    if TargetOf(e, db).None? {
      NoTargetNoEffect(e, db);
    } else if Guarded(e) {
      GuardedTouchesTarget(e, db, u);
    } else if e.ResetPassword? {
      ResetTouchesOwner(e, db, u);
    } else {
      OtherTouchesTarget(e, db, u);
    }
  }

  lemma OtherTouchesTarget(e: Event, db: Db, u: UserId)
    requires Valid(db) && FreshFor(e, NamesIn(db)) && TargetOf(e, db) != Some(u)
    requires !Guarded(e) && !e.ResetPassword?
    ensures Agree(db, Apply(e, db), u)
  {
    if Commits(e, db) {
      if e.Refresh? {
        RefreshTouchesOwner(e, db, u);
      } else {
        PlainTouchesTarget(e, db, u);
      }
    }
  }
}
