/**
 Every interleaving of transactions commits a serial run: the invariant of the
 transaction system and the theorems about runs carried over to it.
 */
module Serializability {
  import opened Basics
  import opened AuthModel
  import opened Sessions
  import opened SessionRuns
  import opened Administrators
  import opened Overlays
  import opened Stability
  import opened Transactions

  // ----- the program of a transaction under its lock -----

  ghost predicate OwnedProgram(p: seq<Stmt>, u: UserId, db: Db, ids: set<SessionId>) {
    AllOwned(p, u, db) && forall s :: s in p && s.InsertSession? ==> s.session in ids
  }

  lemma RefreshProgramIsOwned(e: Event, db: Db, u: UserId)
    requires Valid(db) && e.Refresh? && TargetOf(e, db) == Some(u)
    ensures OwnedProgram(Program(e, db), u, db, NewIds(e))
    ensures forall s :: s in Program(e, db) ==> !s.RequireAdmins?
  {
    if !Accepts(db, e) {
      FamilyIsOwned(db, FindSession(db, e.token).value);
    }
  }

  lemma FamilyIsOwned(db: Db, id: SessionId)
    requires Valid(db) && id in db.sessions
    ensures forall i :: i in db.sessions && db.sessions[i].family == db.sessions[id].family ==>
      db.sessions[i].userId == db.sessions[id].userId
  {
    forall i | i in db.sessions && db.sessions[i].family == db.sessions[id].family
      ensures db.sessions[i].userId == db.sessions[id].userId
    {
      FamilyHasOneOwner(db, i, id);
    }
  }

  lemma GuardedProgramIsOwned(e: Event, db: Db, u: UserId)
    requires Guarded(e) && TargetOf(e, db) == Some(u)
    ensures OwnedProgram(Program(e, db), u, db, {})
  {
    var row := db.users[u];
    var guard := if ConcernsAdmin(e, row) then [RequireAdmins(e.now, 1)] else [];
    assert Program(e, db) == Administrators.Writes(e, row) + guard;
    assert OwnedProgram(Administrators.Writes(e, row), u, db, {});
    assert OwnedProgram(guard, u, db, {});
  }

  lemma ProgramIsOwned(e: Event, db: Db, u: UserId)
    requires Valid(db) && Transactional(e) && TargetOf(e, db) == Some(u)
    ensures OwnedProgram(Program(e, db), u, db, NewIds(e))
    ensures (exists s :: s in Program(e, db) && s.RequireAdmins?) ==> NeedsAdvisory(e)
  {
    if e.Refresh? {
      RefreshProgramIsOwned(e, db, u);
    } else if Guarded(e) {
      GuardedProgramIsOwned(e, db, u);
    }
  }

  /** Reading again under the lock gives the same rows, so the same program. */
  lemma ProgramIsStable(e: Event, db: Db, db': Db, u: UserId)
    requires Consistent(db) && Consistent(db') && Transactional(e) && TargetOf(e, db) == Some(u) && Agree(db, db', u)
    ensures TargetOf(e, db') == Some(u) && Program(e, db') == Program(e, db) && Granted(e, db') == Granted(e, db)
  {
    if e.Refresh? {
      var id := FindSession(db, e.token).value;
      assert HoldsToken(db', id, e.token);
      FindIsUnique(db', id, e.token);
      assert u in db.users;
      assert db'.sessions[id] == db.sessions[id];
    }
  }

  /** What a transaction decided under its lock is what it would decide now. */
  ghost predicate Planned(db: Db, e: Event, u: UserId, prog: seq<Stmt>, granted: bool) {
    TargetOf(e, db) == Some(u) && prog == Program(e, db) && granted == Granted(e, db)
  }

  ghost predicate LeadsTo(ws: seq<Overlays.Writes>, db: Db, prog: seq<Stmt>, done: nat, w: Overlays.Writes) {
    IsHistory(ws, prog, db) && |ws| == done + 1 && ws[done] == w
  }

  /** The first `done` statements ran without exception and left the private writes w. */
  ghost predicate Progressed(db: Db, prog: seq<Stmt>, done: nat, w: Overlays.Writes) {
    exists ws :: LeadsTo(ws, db, prog, done, w)
  }

  /** An open transaction has done exactly what its program would do alone. */
  ghost predicate Working(db: Db, x: Tx) {
    Planned(db, x.event, x.target, x.prog, x.granted) && Progressed(db, x.prog, x.done, x.writes)
  }

  /** A handler on another user's rows does not disturb an open transaction. */
  lemma OtherCommitUnnoticed(o: Event, db: Db, x: Tx)
    requires Valid(db) && FreshFor(o, NamesIn(db)) && Transactional(x.event) && Working(db, x)
    requires TargetOf(o, db) != Some(x.target) && NewIds(x.event) !! Apply(o, db).sessions.Keys
    requires NeedsAdvisory(x.event) ==> !Guarded(o) && !Refused(o, db) && HandsOutCodes(o)
    ensures Working(Apply(o, db), x)
  {
    var db', u := Apply(o, db), x.target;
    var chains :| ChainsOf(db.sessions, chains);
    ApplyKeepsChains(o, db, chains);
    ApplyKeepsConsistent(o, db);
    assert Valid(db');
    TouchesOnlyTarget(o, db, u);
    ProgramIsStable(x.event, db, db', u);
    ProgramIsOwned(x.event, db, u);
    ProgramIsOwned(x.event, db', u);
    if NeedsAdvisory(x.event) {
      forall t ensures RecoverableAdmins(db, t) <= RecoverableAdmins(db', t) {
        HarmlessEvent(o, db, t);
      }
    }
    var ws :| LeadsTo(ws, db, x.prog, x.done, x.writes);
    OpenTransactionStable(ws, x.prog, db, db', u);
    assert LeadsTo(ws, db', x.prog, x.done, x.writes);
  }

  /** Committing the private writes is the handler run alone. */
  lemma CommitIsApply(db: Db, x: Tx)
    requires Working(db, x) && x.done == |x.prog|
    ensures Overlay(db, x.writes) == Apply(x.event, db) && Commits(x.event, db)
  {
    var ws :| LeadsTo(ws, db, x.prog, x.done, x.writes);
    OverlayIsRun(ws, x.prog, db);
  }

  // ----- the invariant -----

  predicate NamesOf(e: Event, n: Names) {
    NewIds(e) <= n.ids && NewHashes(e) <= n.hashes && NewFamilies(e) <= n.families && NewUsers(e) <= n.users
  }

  predicate Apart(e: Event, o: Event) {
    NewIds(e) !! NewIds(o) && NewHashes(e) !! NewHashes(o) && NewFamilies(e) !! NewFamilies(o) &&
      NewUsers(e) !! NewUsers(o)
  }

  ghost predicate History(s: Sys, db: Db) {
    && s.db == Replay(s.log, db) && FreshRun(s.log, db) && Within(Used(s.log, db), s.drawn)
    && |s.answers| == |s.log|
    && forall i :: 0 <= i < |s.log| ==> (s.answers[i] <==> Granted(s.log[i], At(s.log, db, i)))
  }

  ghost predicate TxOk(s: Sys, t: TxId, db: Db)
    requires t in s.txs
  {
    var x := s.txs[t];
    && Transactional(x.event) && NamesOf(x.event, s.drawn) && FreshFor(x.event, Used(s.log, db))
    && (NeedsAdvisory(x.event) && x.phase != Started ==> s.advisory == Some(t))
    && (x.phase == Running ==> x.target in s.locks && s.locks[x.target] == t && Working(s.db, x))
  }

  /** No two open transactions drew the same name. */
  ghost predicate AllApart(txs: map<TxId, Tx>) {
    forall t, r :: t in txs && r in txs && t != r ==> Apart(txs[t].event, txs[r].event)
  }

  ghost predicate SameEvents(txs: map<TxId, Tx>, txs': map<TxId, Tx>) {
    forall t :: t in txs' ==> t in txs && txs'[t].event == txs[t].event
  }

  lemma StayApart(txs: map<TxId, Tx>, txs': map<TxId, Tx>)
    requires AllApart(txs) && SameEvents(txs, txs')
    ensures AllApart(txs')
  {}

  ghost predicate Inv(s: Sys, db: Db) {
    && History(s, db)
    && (forall t :: t in s.txs ==> TxOk(s, t, db))
    && AllApart(s.txs)
  }

  lemma UsedAppend(log: seq<Event>, e: Event, db: Db)
    ensures Used(log + [e], db) == Draw(Used(log, db), e)
    ensures FreshRun(log + [e], db) <==> FreshRun(log, db) && FreshFor(e, Used(log, db))
    ensures Replay(log + [e], db) == Apply(e, Replay(log, db))
  {
    assert (log + [e])[..|log|] == log;
  }

  lemma AtPrefix(log: seq<Event>, e: Event, db: Db, i: nat)
    requires i <= |log|
    ensures At(log + [e], db, i) == At(log, db, i) && At(log, db, |log|) == Replay(log, db)
  {
    assert (log + [e])[..i] == log[..i] && log[..|log|] == log;
  }

  lemma AnswersAppend(log: seq<Event>, answers: seq<bool>, db: Db, e: Event)
    requires |answers| == |log|
    requires forall i :: 0 <= i < |log| ==> (answers[i] <==> Granted(log[i], At(log, db, i)))
    ensures forall i :: 0 <= i < |log| + 1 ==>
      ((answers + [Granted(e, Replay(log, db))])[i] <==> Granted((log + [e])[i], At(log + [e], db, i)))
  {
    forall i | 0 <= i < |log| + 1
      ensures (answers + [Granted(e, Replay(log, db))])[i] <==> Granted((log + [e])[i], At(log + [e], db, i))
    {
      AtPrefix(log, e, db, i);
    }
  }

  lemma HistoryAppend(s: Sys, s': Sys, db: Db, e: Event)
    requires History(s, db) && FreshFor(e, Used(s.log, db)) && NamesOf(e, s'.drawn)
    requires s'.log == s.log + [e] && s'.answers == s.answers + [Granted(e, s.db)] && s'.db == Apply(e, s.db)
    requires Within(s.drawn, s'.drawn)
    ensures History(s', db)
  {
    UsedAppend(s.log, e, db);
    AnswersAppend(s.log, s.answers, db, e);
  }

  lemma FreshInDb(s: Sys, db: Db, e: Event)
    requires History(s, db) && FreshFor(e, Used(s.log, db))
    ensures FreshFor(e, NamesIn(s.db))
  {
    UsedCovers(s.log, db);
  }

  lemma StateIsValid(s: Sys, db: Db)
    requires History(s, db) && Valid(db)
    ensures Valid(s.db)
  {
    ReachableIsValid(s.log, db);
  }

  // ----- every action keeps it -----

  /** A transaction that no action concerned is still in order after handler o. */
  lemma BystanderOk(s: Sys, s': Sys, db: Db, o: Event, t: TxId)
    requires Valid(db) && History(s, db) && History(s', db) && t in s.txs && TxOk(s, t, db)
    requires t in s'.txs && s'.txs[t] == s.txs[t] && Within(s.drawn, s'.drawn)
    requires s'.log == s.log + [o] && s'.db == Apply(o, s.db)
    requires FreshFor(o, Used(s.log, db)) && Apart(s.txs[t].event, o)
    requires s.advisory == Some(t) ==> s'.advisory == Some(t)
    requires s.txs[t].phase == Running ==> s.txs[t].target in s'.locks && s'.locks[s.txs[t].target] == t
    requires s.txs[t].phase == Running ==> TargetOf(o, s.db) != Some(s.txs[t].target)
    requires s.txs[t].phase == Running && NeedsAdvisory(s.txs[t].event) ==>
      !Guarded(o) && !Refused(o, s.db) && HandsOutCodes(o)
    ensures TxOk(s', t, db)
  {
    var x := s.txs[t];
    UsedAppend(s.log, o, db);
    if x.phase == Running {
      StateIsValid(s, db);
      FreshInDb(s, db, o);
      FreshInDb(s', db, x.event);
      OtherCommitUnnoticed(o, s.db, x);
    }
  }

  lemma CommitKeeps(s: Sys, db: Db, t: TxId)
    requires Valid(db) && Inv(s, db) && Enabled(s, Commit(t))
    ensures Inv(Step(s, Commit(t)), db)
  {
    var x, s' := s.txs[t], Step(s, Commit(t));
    assert TxOk(s, t, db);
    CommitIsApply(s.db, x);
    HistoryAppend(s, s', db, x.event);
    forall r | r in s'.txs
      ensures TxOk(s', r, db)
    {
      assert TxOk(s, r, db);
      BystanderOk(s, s', db, x.event, r);
    }
  }

  lemma FindNothingKeeps(s: Sys, db: Db, t: TxId)
    requires Valid(db) && Inv(s, db) && Enabled(s, FindNothing(t))
    ensures Inv(Step(s, FindNothing(t)), db)
  {
    var x, s' := s.txs[t], Step(s, FindNothing(t));
    assert TxOk(s, t, db);
    NoTargetNoEffect(x.event, s.db);
    HistoryAppend(s, s', db, x.event);
    forall r | r in s'.txs
      ensures TxOk(s', r, db)
    {
      NobodyConcerned(s, db, t, r);
    }
  }

  lemma NobodyConcerned(s: Sys, db: Db, t: TxId, r: TxId)
    requires Valid(db) && Inv(s, db) && Enabled(s, FindNothing(t)) && r in s.txs && r != t
    requires History(Step(s, FindNothing(t)), db) && Apply(s.txs[t].event, s.db) == s.db
    ensures TxOk(Step(s, FindNothing(t)), r, db)
  {
    assert TxOk(s, t, db) && TxOk(s, r, db);
    BystanderOk(s, Step(s, FindNothing(t)), db, s.txs[t].event, r);
  }

  lemma QuickKeeps(s: Sys, db: Db, e: Event)
    requires Valid(db) && Inv(s, db) && Enabled(s, Quick(e))
    ensures Inv(Step(s, Quick(e)), db)
  {
    var s' := Step(s, Quick(e));
    HistoryAppend(s, s', db, e);
    forall r | r in s'.txs
      ensures TxOk(s', r, db)
    {
      assert TxOk(s, r, db);
      BystanderOk(s, s', db, e, r);
    }
  }

  lemma BeginKeeps(s: Sys, db: Db, t: TxId, e: Event)
    requires Inv(s, db) && Enabled(s, Begin(t, e))
    ensures Inv(Step(s, Begin(t, e)), db)
  {
    var s' := Step(s, Begin(t, e));
    forall r | r in s'.txs
      ensures TxOk(s', r, db)
    {
      NewcomerOk(s, db, t, e, r);
    }
    NewcomerApart(s, db, t, e);
  }

  lemma NewcomerOk(s: Sys, db: Db, t: TxId, e: Event, r: TxId)
    requires Inv(s, db) && Enabled(s, Begin(t, e)) && r in Step(s, Begin(t, e)).txs
    ensures TxOk(Step(s, Begin(t, e)), r, db)
  {
    if r != t {
      assert TxOk(s, r, db);
    }
  }

  lemma NewcomerApart(s: Sys, db: Db, t: TxId, e: Event)
    requires Inv(s, db) && Enabled(s, Begin(t, e))
    ensures forall r :: r in s.txs ==> Apart(e, s.txs[r].event) && Apart(s.txs[r].event, e)
  {
    forall r | r in s.txs
      ensures Apart(e, s.txs[r].event) && Apart(s.txs[r].event, e)
    {
      assert TxOk(s, r, db);
    }
  }

  /** The committed rows and the history are the same, the open transactions a part of
      what they were. */
  predicate SameHistory(s: Sys, s': Sys) {
    s'.db == s.db && s'.log == s.log && s'.answers == s.answers && s'.drawn == s.drawn
  }

  lemma HistoryStays(s: Sys, s': Sys, db: Db)
    requires History(s, db) && SameHistory(s, s')
    ensures History(s', db)
  {}

  /** A transaction without a program yet asks little of the server. */
  lemma TxStays(s: Sys, s': Sys, db: Db, t: TxId)
    requires t in s.txs && TxOk(s, t, db) && SameHistory(s, s')
    requires t in s'.txs && s'.txs[t] == s.txs[t]
    requires s.advisory == Some(t) ==> s'.advisory == Some(t)
    requires s.txs[t].phase == Running ==> s.txs[t].target in s'.locks && s'.locks[s.txs[t].target] == t
    ensures TxOk(s', t, db)
  {}

  /** Whatever transaction r holds in s it still holds in s'. */
  predicate KeepsHolding(s: Sys, s': Sys, r: TxId)
    requires r in s.txs
  {
    && r in s'.txs && s'.txs[r] == s.txs[r]
    && (s.advisory == Some(r) ==> s'.advisory == Some(r))
    && (forall u :: u in s.locks && s.locks[u] == r ==> u in s'.locks && s'.locks[u] == r)
  }

  /** An action of transaction t that only moves t itself. */
  ghost predicate OnlyMoves(s: Sys, s': Sys, t: TxId)
    requires t in s.txs
  {
    && SameHistory(s, s') && s'.txs.Keys == s.txs.Keys && s'.txs[t].event == s.txs[t].event
    && forall r :: r in s.txs && r != t ==> KeepsHolding(s, s', r)
  }

  lemma MoveKeeps(s: Sys, s': Sys, db: Db, t: TxId)
    requires Inv(s, db) && t in s.txs && OnlyMoves(s, s', t) && TxOk(s', t, db)
    ensures Inv(s', db)
  {
    HistoryStays(s, s', db);
    StayApart(s.txs, s'.txs);
    forall r | r in s'.txs && r != t
      ensures TxOk(s', r, db)
    {
      OtherStays(s, s', db, t, r);
    }
  }

  lemma OtherStays(s: Sys, s': Sys, db: Db, t: TxId, r: TxId)
    requires t in s.txs && OnlyMoves(s, s', t) && r in s.txs && r != t && TxOk(s, r, db)
    ensures r in s'.txs && TxOk(s', r, db)
  {
    assert KeepsHolding(s, s', r);
    TxStays(s, s', db, r);
  }

  predicate Moves(a: Action) {
    a.TakeAdvisory? || a.LockAdmins? || a.LockTarget? || a.Execute?
  }

  lemma MovesOnly(s: Sys, a: Action)
    requires Moves(a) && Enabled(s, a)
    ensures OnlyMoves(s, Step(s, a), a.t)
  {}

  lemma LockingOk(s: Sys, a: Action, db: Db)
    requires (a.TakeAdvisory? || a.LockAdmins?) && Enabled(s, a) && TxOk(s, a.t, db)
    ensures TxOk(Step(s, a), a.t, db)
  {}

  lemma LockTargetOk(s: Sys, t: TxId, db: Db)
    requires Enabled(s, LockTarget(t)) && TxOk(s, t, db)
    ensures TxOk(Step(s, LockTarget(t)), t, db)
  {
    var x := Step(s, LockTarget(t)).txs[t];
    assert LeadsTo([NOTHING], s.db, x.prog, 0, x.writes);
  }

  lemma ExecuteWorks(db: Db, x: Tx, w: Overlays.Writes)
    requires Working(db, x) && x.done < |x.prog| && Executes(x.prog[x.done], db, x.writes, w)
    ensures Working(db, x.(done := x.done + 1, writes := w))
  {
    var ws :| LeadsTo(ws, db, x.prog, x.done, x.writes);
    HistoryExtends(ws, x.prog, db, w);
    assert LeadsTo(ws + [w], db, x.prog, x.done + 1, w);
  }

  lemma HistoryExtends(ws: seq<Overlays.Writes>, p: seq<Stmt>, db: Db, w: Overlays.Writes)
    requires IsHistory(ws, p, db) && |ws| <= |p| && Executes(p[|ws| - 1], db, ws[|ws| - 1], w)
    ensures IsHistory(ws + [w], p, db)
  {
    forall k | 0 <= k < |ws| ensures StepAt(ws + [w], p, db, k) {
      assert k < |ws| - 1 ==> StepAt(ws, p, db, k);
    }
  }

  lemma ExecuteOk(s: Sys, t: TxId, db: Db)
    requires Enabled(s, Execute(t)) && TxOk(s, t, db)
    ensures TxOk(Step(s, Execute(t)), t, db)
  {
    var x := s.txs[t];
    var w := Exec(x.prog[x.done], Overlay(s.db, x.writes), x.writes);
    var moved := x.(done := x.done + 1, writes := w);
    ExecuteStep(s, t);
    ExecuteWorks(s.db, x, w);
    MovedTxOk(s, db, t, moved);
  }

  lemma MovedTxOk(s: Sys, db: Db, t: TxId, x: Tx)
    requires t in s.txs && s.txs[t].phase == Running && TxOk(s, t, db) && Working(s.db, x)
    requires x.event == s.txs[t].event && x.phase == Running && x.target == s.txs[t].target
    ensures TxOk(s.(txs := s.txs[t := x]), t, db)
  {}

  lemma ExecuteStep(s: Sys, t: TxId)
    requires Enabled(s, Execute(t))
    ensures var x := s.txs[t];
      var w := Exec(x.prog[x.done], Overlay(s.db, x.writes), x.writes);
      Step(s, Execute(t)) == s.(txs := s.txs[t := x.(done := x.done + 1, writes := w)])
  {}

  lemma MovedOk(s: Sys, a: Action, db: Db)
    requires Moves(a) && Enabled(s, a) && TxOk(s, a.t, db)
    ensures TxOk(Step(s, a), a.t, db)
  {
    match a
    case LockTarget(t) => LockTargetOk(s, t, db);
    case Execute(t) => ExecuteOk(s, t, db);
    case _ => LockingOk(s, a, db);
  }

  lemma MovingKeeps(s: Sys, db: Db, a: Action)
    requires Moves(a) && Inv(s, db) && Enabled(s, a)
    ensures Inv(Step(s, a), db)
  {
    MovesOnly(s, a);
    MovedOk(s, a, db);
    MoveKeeps(s, Step(s, a), db, a.t);
  }

  lemma AbortKeeps(s: Sys, db: Db, t: TxId)
    requires Inv(s, db) && Enabled(s, Abort(t))
    ensures Inv(Step(s, Abort(t)), db)
  {
    var s' := Step(s, Abort(t));
    HistoryStays(s, s', db);
    StayApart(s.txs, s'.txs);
    forall r | r in s'.txs
      ensures TxOk(s', r, db)
    {
      assert TxOk(s, r, db);
      TxStays(s, s', db, r);
    }
  }

  lemma StepKeepsInv(s: Sys, db: Db, a: Action)
    requires Valid(db) && Inv(s, db) && Enabled(s, a)
    ensures Inv(Step(s, a), db)
  {
    match a
    case Begin(t, e) => BeginKeeps(s, db, t, e);
    case FindNothing(t) => FindNothingKeeps(s, db, t);
    case Commit(t) => CommitKeeps(s, db, t);
    case Quick(e) => QuickKeeps(s, db, e);
    case Abort(t) => AbortKeeps(s, db, t);
    case _ => MovingKeeps(s, db, a);
  }

  // ----- the theorems -----

  /** Serialisability: under every interleaving the committed database is the serial
      replay of the committed handlers in commit order, and every client was answered
      as in that serial run. */
  lemma {:induction false} EveryInterleavingIsSerial(acts: seq<Action>, db: Db)
    requires Valid(db) && Legal(acts, db)
    ensures Inv(After(acts, db), db)
  {
    if acts != [] {
      EveryInterleavingIsSerial(acts[..|acts| - 1], db);
      StepKeepsInv(After(acts[..|acts| - 1], db), db, acts[|acts| - 1]);
    }
  }
}
