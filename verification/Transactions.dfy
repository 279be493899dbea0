/**
 Concurrent transactions under PostgreSQL's READ COMMITTED: each one takes its locks,
 executes its statements one at a time against the committed rows and its own writes,
 and commits or rolls back, while others do the same.  Row locks and the advisory lock
 are held to the end and a waiter reads the row it was waiting for afresh.

 The committed database is always the serial replay, in commit order, of the committed
 handlers; the theorems about runs therefore hold of every interleaving.
 */
module Transactions {
  import opened Basics
  import opened AuthModel
  import opened Sessions
  import opened Administrators
  import opened Overlays

  type TxId = nat

  datatype Phase = Started | Advised | AdminsLocked | Running

  /** An open transaction; `granted` is what its client will be told. */
  datatype Tx = Tx(event: Event, phase: Phase, target: UserId, prog: seq<Stmt>, done: nat, writes: Overlays.Writes,
    granted: bool)

  /** The server: committed rows, open transactions and locks, and, as history, the
      committed handlers in commit order with their answers and every name drawn. */
  datatype Sys = Sys(
    db: Db, txs: map<TxId, Tx>, advisory: Option<TxId>, locks: map<UserId, TxId>,
    log: seq<Event>, answers: seq<bool>, drawn: Names)

  datatype Action =
    | Begin(t: TxId, e: Event)
    | TakeAdvisory(t: TxId)
    | LockAdmins(t: TxId)
    | LockTarget(t: TxId)
    | FindNothing(t: TxId)
    | Execute(t: TxId)
    | Commit(t: TxId)
    | Abort(t: TxId)
    | Quick(e: Event)

  predicate NeedsAdvisory(e: Event) {
    Guarded(e) || e.AdminRevokeSessions?
  }

  predicate Transactional(e: Event) {
    NeedsAdvisory(e) || e.Refresh? || e.ResetPassword?
  }

  /** The refresh handler hands out a new token pair. */
  ghost predicate Granted(e: Event, db: Db) {
    e.Refresh? && Accepts(db, e)
  }

  function Draw(n: Names, e: Event): Names {
    Names(n.ids + NewIds(e), n.hashes + NewHashes(e), n.families + NewFamilies(e), n.users + NewUsers(e))
  }

  function AdminIds(db: Db): set<UserId> {
    set u | u in db.users && db.users[u].role == ADMIN
  }

  predicate Free(s: Sys, t: TxId, u: UserId) {
    u in s.locks ==> s.locks[u] == t
  }

  ghost predicate Enabled(s: Sys, a: Action) {
    match a
    case Begin(t, e) => t !in s.txs && Transactional(e) && FreshFor(e, s.drawn)
    case TakeAdvisory(t) => t in s.txs && s.txs[t].phase == Started && NeedsAdvisory(s.txs[t].event) && s.advisory.None?
    case LockAdmins(t) =>
      t in s.txs && s.txs[t].phase == Advised && forall u :: u in AdminIds(s.db) ==> Free(s, t, u)
    case LockTarget(t) =>
      && t in s.txs && s.txs[t].phase == (if NeedsAdvisory(s.txs[t].event) then AdminsLocked else Started)
      && TargetOf(s.txs[t].event, s.db).Some? && Free(s, t, TargetOf(s.txs[t].event, s.db).value)
    case FindNothing(t) =>
      && t in s.txs && s.txs[t].phase == (if NeedsAdvisory(s.txs[t].event) then AdminsLocked else Started)
      && TargetOf(s.txs[t].event, s.db).None?
    case Execute(t) =>
      && t in s.txs && s.txs[t].phase == Running && s.txs[t].done < |s.txs[t].prog|
      && TxStmt(s.txs[t].prog[s.txs[t].done])
      && Applicable(s.txs[t].prog[s.txs[t].done], Overlay(s.db, s.txs[t].writes))
    case Commit(t) => t in s.txs && s.txs[t].phase == Running && s.txs[t].done == |s.txs[t].prog|
    case Abort(t) => t in s.txs
    case Quick(e) =>
      && !Transactional(e) && FreshFor(e, s.drawn)
      && (e.Login? ==> s.locks == map[])
      && HandsOutCodes(e)
      && (TargetOf(e, s.db).Some? ==> TargetOf(e, s.db).value !in s.locks)
  }

  function Released(s: Sys, t: TxId): Sys {
    s.(txs := s.txs - {t},
       advisory := if s.advisory == Some(t) then None else s.advisory,
       locks := map u | u in s.locks && s.locks[u] != t :: s.locks[u])
  }

  ghost function Step(s: Sys, a: Action): Sys
    requires Enabled(s, a)
  {
    match a
    case Begin(t, e) =>
      s.(txs := s.txs[t := Tx(e, Started, 0, [], 0, NOTHING, false)], drawn := Draw(s.drawn, e))
    case TakeAdvisory(t) => s.(advisory := Some(t), txs := s.txs[t := s.txs[t].(phase := Advised)])
    case LockAdmins(t) =>
      s.(locks := s.locks + (map u | u in AdminIds(s.db) :: t), txs := s.txs[t := s.txs[t].(phase := AdminsLocked)])
    case LockTarget(t) =>
      var e := s.txs[t].event;
      var u := TargetOf(e, s.db).value;
      s.(locks := s.locks[u := t],
         txs := s.txs[t := Tx(e, Running, u, Program(e, s.db), 0, NOTHING, Granted(e, s.db))])
    case FindNothing(t) =>
      Released(s, t).(log := s.log + [s.txs[t].event], answers := s.answers + [false])
    case Execute(t) =>
      var x := s.txs[t];
      s.(txs := s.txs[t := x.(done := x.done + 1, writes := Exec(x.prog[x.done], Overlay(s.db, x.writes), x.writes))])
    case Commit(t) =>
      var x := s.txs[t];
      Released(s, t).(db := Overlay(s.db, x.writes), log := s.log + [x.event], answers := s.answers + [x.granted])
    case Abort(t) => Released(s, t)
    case Quick(e) =>
      s.(db := Apply(e, s.db), log := s.log + [e], answers := s.answers + [false], drawn := Draw(s.drawn, e))
  }

  ghost function Initial(db: Db): Sys {
    Sys(db, map[], None, map[], [], [], NamesIn(db))
  }

  /** The interleavings: sequences of actions each enabled when it is taken. */
  ghost predicate Legal(acts: seq<Action>, db: Db)
    decreases |acts|, 0
  {
    acts == [] || (Legal(acts[..|acts| - 1], db) && Enabled(After(acts[..|acts| - 1], db), acts[|acts| - 1]))
  }

  ghost function After(acts: seq<Action>, db: Db): Sys
    requires Legal(acts, db)
    decreases |acts|, 1
  {
    if acts == [] then Initial(db) else Step(After(acts[..|acts| - 1], db), acts[|acts| - 1])
  }
}
