/**
 Why row locks make an open transaction stable: while nobody else writes the rows of
 the user it has locked, what it read, decided and wrote is what it would read, decide
 and write on the database as others leave it.
 */
module Stability {
  import opened AuthModel
  import opened Overlays

  /** Every row the statement names or selects belongs to user u. */
  ghost predicate OwnedBy(s: Stmt, u: UserId, db: Db) {
    match s
    case UpdateUser(v, _) => v == u
    case DropUser(v) => v == u
    case InsertSession(_, row) => row.userId == u
    case RotateSession(i, _, _) => i in db.sessions && db.sessions[i].userId == u
    case RevokeFamily(f, _) => forall i :: i in db.sessions && db.sessions[i].family == f ==> db.sessions[i].userId == u
    case RevokeUser(v, _) => v == u
    case UseResets(v, _) => v == u
    case DropMfa(v) => v == u
    case RequireAdmins(_, _) => true
    case _ => false
  }

  ghost predicate WritesOf(w: Writes, u: UserId) {
    && w.users.Keys <= {u} && w.gone <= {u} && w.noMfa <= {u}
    && (forall i :: i in w.sessions ==> w.sessions[i].userId == u)
    && (forall h :: h in w.resets ==> w.resets[h].userId == u)
  }

  /** Writing rows that existed: no row of somebody else is overwritten. */
  ghost predicate OverOwn(db: Db, w: Writes, u: UserId) {
    && (forall i :: i in w.sessions && i in db.sessions ==> db.sessions[i].userId == u)
    && (forall h :: h in w.resets && h in db.resets ==> db.resets[h].userId == u)
  }

  // ----- what the transaction sees is stable -----

  lemma SessionsLayAgree(db: Db, db': Db, w: Writes, u: UserId)
    requires SessionsWithin(db.sessions, db'.sessions, u)
    ensures SessionsWithin(Overlay(db, w).sessions, Overlay(db', w).sessions, u)
  {}

  lemma ResetsLayAgree(db: Db, db': Db, w: Writes, u: UserId)
    requires ResetsWithin(db.resets, db'.resets, u)
    ensures ResetsWithin(Overlay(db, w).resets, Overlay(db', w).resets, u)
  {}

  lemma OverlayAgrees(db: Db, db': Db, w: Writes, u: UserId)
    requires Agree(db, db', u)
    ensures Agree(Overlay(db, w), Overlay(db', w), u)
  {
    SessionsLayAgree(db, db', w, u);
    SessionsLayAgree(db', db, w, u);
    ResetsLayAgree(db, db', w, u);
    ResetsLayAgree(db', db, w, u);
  }

  lemma SelectionsAgree(v: Db, v': Db, s: Stmt, u: UserId)
    requires Agree(v, v', u) && OwnedBy(s, u, v) && OwnedBy(s, u, v')
    ensures s.RevokeFamily? ==> LiveOfFamily(v.sessions, s.family, s.at) == LiveOfFamily(v'.sessions, s.family, s.at)
    ensures s.RevokeUser? ==> LiveOfUser(v.sessions, s.user, s.at) == LiveOfUser(v'.sessions, s.user, s.at)
    ensures s.UseResets? ==> UnusedOf(v.resets, s.user, s.at) == UnusedOf(v'.resets, s.user, s.at)
  {}

  lemma ExecAgrees(s: Stmt, v: Db, v': Db, w: Writes, u: UserId)
    requires TxStmt(s) && Applicable(s, v) && Applicable(s, v')
    requires Agree(v, v', u) && OwnedBy(s, u, v) && OwnedBy(s, u, v')
    ensures Exec(s, v, w) == Exec(s, v', w)
  {
    SelectionsAgree(v, v', s, u);
  }

  // ----- the writes stay within the locked rows -----

  lemma OverlayOwnedBy(s: Stmt, u: UserId, db: Db, w: Writes)
    requires OwnedBy(s, u, db) && WritesOf(w, u) && OverOwn(db, w, u) && Applicable(s, Overlay(db, w))
    ensures OwnedBy(s, u, Overlay(db, w))
  {}

  lemma ExecWritesOf(s: Stmt, u: UserId, v: Db, w: Writes)
    requires TxStmt(s) && Applicable(s, v) && OwnedBy(s, u, v) && WritesOf(w, u)
    ensures WritesOf(Exec(s, v, w), u)
  {}

  lemma ExecOverOwn(s: Stmt, u: UserId, db: Db, w: Writes)
    requires TxStmt(s) && Applicable(s, Overlay(db, w)) && OwnedBy(s, u, Overlay(db, w))
    requires WritesOf(w, u) && OverOwn(db, w, u)
    ensures OverOwn(db, Exec(s, Overlay(db, w), w), u)
  {}

  ghost predicate AllOwned(p: seq<Stmt>, u: UserId, db: Db) {
    forall s :: s in p ==> OwnedBy(s, u, db)
  }

  lemma ExecStaysOwn(s: Stmt, u: UserId, db: Db, w: Writes)
    requires TxStmt(s) && Applicable(s, Overlay(db, w)) && OwnedBy(s, u, db)
    requires WritesOf(w, u) && OverOwn(db, w, u)
    ensures OwnedBy(s, u, Overlay(db, w))
    ensures WritesOf(Exec(s, Overlay(db, w), w), u) && OverOwn(db, Exec(s, Overlay(db, w), w), u)
  {
    OverlayOwnedBy(s, u, db, w);
    ExecWritesOf(s, u, Overlay(db, w), w);
    ExecOverOwn(s, u, db, w);
  }

  // ----- recoverable administrators as the transaction sees them -----

  /** No commit of another transaction makes anybody unrecoverable. */
  ghost predicate KeepsAdmins(db: Db, db': Db) {
    forall t :: RecoverableAdmins(db, t) <= RecoverableAdmins(db', t)
  }

  lemma SmallerSet(a: set<UserId>, b: set<UserId>)
    requires a <= b
    ensures |a| <= |b|
  {
    assert b == a + (b - a);
  }

  lemma OtherCodesShowThrough(db: Db, w: Writes, u: UserId, x: UserId)
    requires WritesOf(w, u) && x != u
    ensures HasUnusedCode(Overlay(db, w).codes, x) <==> HasUnusedCode(db.codes, x)
    ensures x in Overlay(db, w).users <==> x in db.users
    ensures x in db.users ==> Overlay(db, w).users[x] == db.users[x]
  {
    var c := LayCodes(db.codes, w.gone + w.noMfa);
    forall h | h in db.codes && db.codes[h].userId == x
      ensures h in c && c[h] == db.codes[h]
    {}
  }

  lemma SameCodes(v: Db, v': Db, u: UserId)
    requires Agree(v, v', u)
    ensures HasUnusedCode(v.codes, u) ==> HasUnusedCode(v'.codes, u)
  {
    if HasUnusedCode(v.codes, u) {
      var h :| h in v.codes && v.codes[h].userId == u && v.codes[h].usedAt.None?;
      assert h in v'.codes && v'.codes[h] == v.codes[h];
    }
  }

  lemma OverlayKeepsAdmins(db: Db, db': Db, w: Writes, u: UserId, t: Time)
    requires KeepsAdmins(db, db') && WritesOf(w, u) && Agree(Overlay(db, w), Overlay(db', w), u)
    ensures RecoverableAdmins(Overlay(db, w), t) <= RecoverableAdmins(Overlay(db', w), t)
  {
    forall x | x in RecoverableAdmins(Overlay(db, w), t)
      ensures x in RecoverableAdmins(Overlay(db', w), t)
    {
      if x == u {
        SameCodes(Overlay(db, w), Overlay(db', w), u);
      } else {
        OtherCodesShowThrough(db, w, u, x);
        OtherCodesShowThrough(db', w, u, x);
        assert x in RecoverableAdmins(db, t);
        assert x in RecoverableAdmins(db', t);
      }
    }
  }

  // ----- stability of an open transaction -----

  /** What another commit must respect for the owner of u's lock not to notice it. */
  ghost predicate Unnoticed(db: Db, db': Db, u: UserId, p: seq<Stmt>) {
    && Agree(db, db', u) && AllOwned(p, u, db) && AllOwned(p, u, db')
    && (forall s :: s in p && s.InsertSession? ==> s.session !in db'.sessions)
    && ((exists s :: s in p && s.RequireAdmins?) ==> KeepsAdmins(db, db'))
  }

  lemma ApplicableStays(s: Stmt, db: Db, db': Db, w: Writes, u: UserId)
    requires TxStmt(s) && Applicable(s, Overlay(db, w)) && OwnedBy(s, u, Overlay(db, w))
    requires Agree(Overlay(db, w), Overlay(db', w), u) && Agree(db, db', u) && WritesOf(w, u)
    requires s.InsertSession? ==> s.session !in db'.sessions
    requires s.RequireAdmins? ==> KeepsAdmins(db, db')
    ensures Applicable(s, Overlay(db', w))
  {
    var v, v' := Overlay(db, w), Overlay(db', w);
    if s.InsertSession? {
      if s.session in v'.sessions {
        assert s.session in w.sessions;
        assert v'.sessions[s.session].userId == u;
        assert s.session in v.sessions;
      }
    } else if s.RequireAdmins? {
      OverlayKeepsAdmins(db, db', w, u, s.at);
      SmallerSet(RecoverableAdmins(v, s.at), RecoverableAdmins(v', s.at));
    }
  }

  /** One statement does to the other database what it does here. */
  lemma StatementStable(s: Stmt, db: Db, db': Db, w: Writes, u: UserId)
    requires TxStmt(s) && Applicable(s, Overlay(db, w)) && OwnedBy(s, u, db) && OwnedBy(s, u, db')
    requires Agree(db, db', u) && WritesOf(w, u) && OverOwn(db, w, u) && OverOwn(db', w, u)
    requires s.InsertSession? ==> s.session !in db'.sessions
    requires s.RequireAdmins? ==> KeepsAdmins(db, db')
    ensures Applicable(s, Overlay(db', w))
    ensures Exec(s, Overlay(db, w), w) == Exec(s, Overlay(db', w), w)
  {
    OverlayAgrees(db, db', w, u);
    OverlayOwnedBy(s, u, db, w);
    ApplicableStays(s, db, db', w, u);
    OverlayOwnedBy(s, u, db', w);
    ExecAgrees(s, Overlay(db, w), Overlay(db', w), w, u);
  }

  /** A statement that raised nothing here raises nothing there, and writes the same rows
      of the same user. */
  lemma ExecutionStable(s: Stmt, db: Db, db': Db, w: Writes, w': Writes, u: UserId)
    requires Executes(s, db, w, w') && OwnedBy(s, u, db) && OwnedBy(s, u, db')
    requires Agree(db, db', u) && WritesOf(w, u) && OverOwn(db, w, u) && OverOwn(db', w, u)
    requires s.InsertSession? ==> s.session !in db'.sessions
    requires s.RequireAdmins? ==> KeepsAdmins(db, db')
    ensures Executes(s, db', w, w') && WritesOf(w', u) && OverOwn(db, w', u) && OverOwn(db', w', u)
  {
    StatementStable(s, db, db', w, u);
    ExecStaysOwn(s, u, db, w);
    ExecStaysOwn(s, u, db', w);
  }

  lemma NextStable(ws: seq<Writes>, p: seq<Stmt>, k: nat, db: Db, db': Db, u: UserId)
    requires IsHistory(ws, p, db) && k + 1 < |ws| && Unnoticed(db, db', u, p)
    requires WritesOf(ws[k], u) && OverOwn(db, ws[k], u) && OverOwn(db', ws[k], u)
    ensures StepAt(ws, p, db', k)
    ensures WritesOf(ws[k + 1], u) && OverOwn(db, ws[k + 1], u) && OverOwn(db', ws[k + 1], u)
  {
    assert p[k] in p && StepAt(ws, p, db, k);
    ExecutionStable(p[k], db, db', ws[k], ws[k + 1], u);
  }

  lemma {:induction false} StableSoFar(ws: seq<Writes>, p: seq<Stmt>, k: nat, db: Db, db': Db, u: UserId)
    requires IsHistory(ws, p, db) && k < |ws| && Unnoticed(db, db', u, p)
    ensures forall j :: 0 <= j < k ==> StepAt(ws, p, db', j)
    ensures WritesOf(ws[k], u) && OverOwn(db, ws[k], u) && OverOwn(db', ws[k], u)
  {
    if k > 0 {
      StableSoFar(ws, p, k - 1, db, db', u);
      NextStable(ws, p, k - 1, db, db', u);
    }
  }

  /** What an open transaction has executed stays executed when others commit around its
      locks. */
  lemma OpenTransactionStable(ws: seq<Writes>, p: seq<Stmt>, db: Db, db': Db, u: UserId)
    requires IsHistory(ws, p, db) && Unnoticed(db, db', u, p)
    ensures IsHistory(ws, p, db')
  {
    StableSoFar(ws, p, |ws| - 1, db, db', u);
  }
}
