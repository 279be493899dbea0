/**
 The converse of serialisability: every serial run is what some interleaving commits.
 So locks never shut anybody out for good, and the histories of the transaction system
 are exactly the serial runs of handlers that commit.
 */
module SerialRuns {
  import opened Basics
  import opened AuthModel
  import opened Sessions
  import opened SessionRuns
  import opened Administrators
  import opened Overlays
  import opened Transactions
  import opened Serializability

  ghost predicate Served(acts: seq<Action>, db: Db, s: Sys) {
    Legal(acts, db) && After(acts, db) == s
  }

  lemma Act(acts: seq<Action>, db: Db, s: Sys, a: Action) returns (more: seq<Action>)
    requires Served(acts, db, s) && Enabled(s, a)
    ensures Served(more, db, Step(s, a))
  {
    more := acts + [a];
    assert more[..|more| - 1] == acts;
  }

  // ----- one transaction alone -----

  predicate AllTx(p: seq<Stmt>) {
    forall s :: s in p ==> TxStmt(s)
  }

  lemma ProgramsAreTx(e: Event, db: Db)
    requires Transactional(e)
    ensures AllTx(Program(e, db))
  {}

  /** The locks are taken and `x.done` statements executed. */
  ghost predicate Runs(s: Sys, t: TxId, x: Tx) {
    t in s.txs && s.txs[t] == x && x.phase == Running && x.done <= |x.prog| && AllTx(x.prog)
  }

  lemma {:induction false} ExecuteAll(acts: seq<Action>, db: Db, s: Sys, t: TxId, x: Tx)
      returns (more: seq<Action>, w: Overlays.Writes)
    requires Served(acts, db, s) && Runs(s, t, x) && Run(x.prog[x.done..], Overlay(s.db, x.writes)).Some?
    ensures Served(more, db, s.(txs := s.txs[t := x.(done := |x.prog|, writes := w)]))
    ensures Some(Overlay(s.db, w)) == Run(x.prog[x.done..], Overlay(s.db, x.writes))
    decreases |x.prog| - x.done
  {
    if x.done == |x.prog| {
      more, w := acts, x.writes;
      assert s.txs[t := x] == s.txs;
    } else {
      var rest := x.prog[x.done..];
      assert rest[1..] == x.prog[x.done + 1..];
      OverlayExec(rest[0], s.db, x.writes);
      var moved, s' := AfterNext(s, x), s.(txs := s.txs[t := AfterNext(s, x)]);
      more := ExecuteNext(acts, db, s, t, x);
      more, w := ExecuteAll(more, db, s', t, moved);
      assert s'.txs[t := moved.(done := |x.prog|, writes := w)] == s.txs[t := x.(done := |x.prog|, writes := w)];
    }
  }

  ghost predicate HasNext(s: Sys, x: Tx) {
    x.done < |x.prog| && TxStmt(x.prog[x.done]) && Applicable(x.prog[x.done], Overlay(s.db, x.writes))
  }

  ghost function AfterNext(s: Sys, x: Tx): Tx
    requires HasNext(s, x)
  {
    x.(done := x.done + 1, writes := Exec(x.prog[x.done], Overlay(s.db, x.writes), x.writes))
  }

  lemma ExecuteNext(acts: seq<Action>, db: Db, s: Sys, t: TxId, x: Tx) returns (more: seq<Action>)
    requires Served(acts, db, s) && Runs(s, t, x) && HasNext(s, x)
    ensures Served(more, db, s.(txs := s.txs[t := AfterNext(s, x)]))
  {
    ExecuteStep(s, t);
    more := Act(acts, db, s, Execute(t));
  }

  /** Nothing is open. */
  ghost function Idle(db: Db, log: seq<Event>, answers: seq<bool>, drawn: Names): Sys {
    Sys(db, map[], None, map[], log, answers, drawn)
  }

  /** What a committed handler leaves: its effect, itself in the history, and no lock. */
  ghost function Done(s: Sys, e: Event): Sys {
    Idle(Apply(e, s.db), s.log + [e], s.answers + [Granted(e, s.db)], Draw(s.drawn, e))
  }

  /** A transaction that has the locks it asks for before that on its target's row. */
  ghost predicate Locked(s: Sys, s': Sys, t: TxId, e: Event) {
    && s'.txs == map[t := Tx(e, if NeedsAdvisory(e) then AdminsLocked else Started, 0, [], 0, NOTHING, false)]
    && (forall u :: u in s'.locks ==> s'.locks[u] == t)
    && (s'.advisory.Some? ==> s'.advisory == Some(t))
    && s'.db == s.db && s'.log == s.log && s'.answers == s.answers && s'.drawn == Draw(s.drawn, e)
  }

  lemma TakeLocks(acts: seq<Action>, db: Db, s: Sys, t: TxId, e: Event) returns (more: seq<Action>, s': Sys)
    requires Served(acts, db, s) && s == Idle(s.db, s.log, s.answers, s.drawn)
    requires Transactional(e) && FreshFor(e, s.drawn)
    ensures Served(more, db, s') && Locked(s, s', t, e)
  {
    more := Act(acts, db, s, Begin(t, e));
    s' := Step(s, Begin(t, e));
    if NeedsAdvisory(e) {
      more, s' := TakeAdminLocks(more, db, s, s', t, e);
    }
  }

  lemma TakeAdminLocks(acts: seq<Action>, db: Db, s: Sys, s': Sys, t: TxId, e: Event)
      returns (more: seq<Action>, s'': Sys)
    requires Served(acts, db, s') && NeedsAdvisory(e)
    requires s' == Idle(s.db, s.log, s.answers, Draw(s.drawn, e)).(
      txs := map[t := Tx(e, Started, 0, [], 0, NOTHING, false)])
    ensures Served(more, db, s'') && Locked(s, s'', t, e)
  {
    more := Act(acts, db, s', TakeAdvisory(t));
    s'' := Step(s', TakeAdvisory(t));
    more := Act(more, db, s'', LockAdmins(t));
    s'' := Step(s'', LockAdmins(t));
  }

  lemma ServeNobody(acts: seq<Action>, db: Db, s: Sys, s': Sys, t: TxId, e: Event) returns (more: seq<Action>)
    requires Served(acts, db, s') && Locked(s, s', t, e) && TargetOf(e, s.db).None?
    ensures Served(more, db, Done(s, e))
  {
    more := Act(acts, db, s', FindNothing(t));
    NoTargetNoEffect(e, s.db);
    assert Step(s', FindNothing(t)) == Done(s, e);
  }

  lemma ServeTarget(acts: seq<Action>, db: Db, s: Sys, s': Sys, t: TxId, e: Event) returns (more: seq<Action>)
    requires Served(acts, db, s') && Locked(s, s', t, e) && TargetOf(e, s.db).Some?
    requires Transactional(e) && Commits(e, s.db)
    ensures Served(more, db, Done(s, e))
  {
    var x := Tx(e, Running, TargetOf(e, s.db).value, Program(e, s.db), 0, NOTHING, Granted(e, s.db));
    var locked := s'.(locks := s'.locks[x.target := t], txs := s'.txs[t := x]);
    TargetLocked(s, s', t, e, x);
    more := Act(acts, db, s', LockTarget(t));
    ProgramsAreTx(e, s.db);
    OverlayOfNothing(s.db);
    assert x.prog[0..] == x.prog;
    var w;
    more, w := ExecuteAll(more, db, locked, t, x);
    var ran := locked.(txs := locked.txs[t := x.(done := |x.prog|, writes := w)]);
    CommittedIsDone(s, ran, t, e);
    more := Act(more, db, ran, Commit(t));
  }

  lemma TargetLocked(s: Sys, s': Sys, t: TxId, e: Event, x: Tx)
    requires Locked(s, s', t, e) && TargetOf(e, s.db) == Some(x.target)
    requires x == Tx(e, Running, x.target, Program(e, s.db), 0, NOTHING, Granted(e, s.db))
    ensures Enabled(s', LockTarget(t))
    ensures Step(s', LockTarget(t)) == s'.(locks := s'.locks[x.target := t], txs := s'.txs[t := x])
  {}

  lemma CommittedIsDone(s: Sys, ran: Sys, t: TxId, e: Event)
    requires ran.txs.Keys == {t} && (forall u :: u in ran.locks ==> ran.locks[u] == t)
    requires ran.advisory.Some? ==> ran.advisory == Some(t)
    requires ran.db == s.db && ran.log == s.log && ran.answers == s.answers && ran.drawn == Draw(s.drawn, e)
    requires ran.txs[t].event == e && ran.txs[t].phase == Running && ran.txs[t].done == |ran.txs[t].prog|
    requires ran.txs[t].granted == Granted(e, s.db) && Overlay(s.db, ran.txs[t].writes) == Apply(e, s.db)
    ensures Enabled(ran, Commit(t)) && Step(ran, Commit(t)) == Done(s, e)
  {
    assert (map u | u in ran.locks && ran.locks[u] != t :: ran.locks[u]) == map[];
  }

  // ----- whole runs -----

  /** A transaction commits; a confirmation of MFA hands out codes. */
  ghost predicate Servable(e: Event, db: Db) {
    if Transactional(e) then Commits(e, db) else HandsOutCodes(e)
  }

  lemma ServeOne(acts: seq<Action>, db: Db, s: Sys, e: Event) returns (more: seq<Action>)
    requires Served(acts, db, s) && s == Idle(s.db, s.log, s.answers, s.drawn)
    requires Servable(e, s.db) && FreshFor(e, s.drawn)
    ensures Served(more, db, Done(s, e))
  {
    if Transactional(e) {
      var s';
      more, s' := TakeLocks(acts, db, s, 0, e);
      if TargetOf(e, s.db).None? {
        more := ServeNobody(more, db, s, s', 0, e);
      } else {
        more := ServeTarget(more, db, s, s', 0, e);
      }
    } else {
      more := Act(acts, db, s, Quick(e));
    }
  }

  ghost predicate AllServable(log: seq<Event>, db: Db) {
    forall i :: 0 <= i < |log| ==> Servable(log[i], At(log, db, i))
  }

  ghost predicate IdleAfter(acts: seq<Action>, db: Db, log: seq<Event>) {
    && Legal(acts, db)
    && var s := After(acts, db);
       s == Idle(Replay(log, db), log, s.answers, Used(log, db))
  }

  lemma StartIsIdle(db: Db)
    ensures IdleAfter([], db, [])
  {}

  lemma ServablePrefix(log: seq<Event>, db: Db)
    requires log != [] && AllServable(log, db)
    ensures AllServable(log[..|log| - 1], db) && Servable(log[|log| - 1], Replay(log[..|log| - 1], db))
  {
    var init := log[..|log| - 1];
    forall i | 0 <= i < |init| ensures Servable(init[i], At(init, db, i)) {
      assert init[..i] == log[..i] && init[i] == log[i];
    }
  }

  /** Every serial run of handlers that commit is served, one after the other. */
  lemma {:induction false} SerialRunIsServed(log: seq<Event>, db: Db) returns (acts: seq<Action>)
    requires FreshRun(log, db) && AllServable(log, db)
    ensures IdleAfter(acts, db, log)
  {
    if log == [] {
      acts := [];
      StartIsIdle(db);
    } else {
      var init, e := log[..|log| - 1], log[|log| - 1];
      assert log == init + [e];
      UsedAppend(init, e, db);
      ServablePrefix(log, db);
      acts := SerialRunIsServed(init, db);
      acts := ServeNext(acts, db, init, e);
    }
  }

  lemma ServeNext(acts: seq<Action>, db: Db, init: seq<Event>, e: Event) returns (more: seq<Action>)
    requires IdleAfter(acts, db, init) && Servable(e, Replay(init, db)) && FreshFor(e, Used(init, db))
    ensures IdleAfter(more, db, init + [e])
  {
    var s := After(acts, db);
    more := ServeOne(acts, db, s, e);
    DoneIsIdle(more, db, s, init, e);
  }

  lemma DoneIsIdle(acts: seq<Action>, db: Db, s: Sys, init: seq<Event>, e: Event)
    requires s == Idle(Replay(init, db), init, s.answers, Used(init, db)) && Served(acts, db, Done(s, e))
    ensures IdleAfter(acts, db, init + [e])
  {
    UsedAppend(init, e, db);
  }

  lemma ServableAppend(log: seq<Event>, db: Db, e: Event)
    requires AllServable(log, db) && Servable(e, Replay(log, db))
    ensures AllServable(log + [e], db)
  {
    forall i | 0 <= i < |log| + 1 ensures Servable((log + [e])[i], At(log + [e], db, i)) {
      AtPrefix(log, e, db, i);
    }
  }

  lemma LoggedIsServable(s: Sys, db: Db, a: Action)
    requires Valid(db) && Inv(s, db) && Enabled(s, a) && AllServable(s.log, db)
    ensures AllServable(Step(s, a).log, db)
  {
    match a
    case Commit(t) =>
      assert TxOk(s, t, db);
      CommitIsApply(s.db, s.txs[t]);
      ServableAppend(s.log, db, s.txs[t].event);
    case FindNothing(t) =>
      assert TxOk(s, t, db);
      NoTargetNoEffect(s.txs[t].event, s.db);
      ServableAppend(s.log, db, s.txs[t].event);
    case Quick(e) => ServableAppend(s.log, db, e);
    case _ =>
  }

  lemma {:induction false} HistoryIsServable(acts: seq<Action>, db: Db)
    requires Valid(db) && Legal(acts, db)
    ensures AllServable(After(acts, db).log, db)
  {
    if acts != [] {
      var init := acts[..|acts| - 1];
      HistoryIsServable(init, db);
      EveryInterleavingIsSerial(init, db);
      LoggedIsServable(After(init, db), db, acts[|acts| - 1]);
    }
  }

  ghost predicate IsHistoryOf(acts: seq<Action>, db: Db, log: seq<Event>) {
    Legal(acts, db) && After(acts, db).log == log
  }

  /** The histories of the interleaved system are exactly the serial runs with fresh names
      whose transactions commit: nothing else is ever committed, and nothing that could be
      is shut out. */
  lemma HistoriesAreSerialRuns(log: seq<Event>, db: Db)
    requires Valid(db)
    ensures (exists acts :: IsHistoryOf(acts, db, log)) <==> FreshRun(log, db) && AllServable(log, db)
  {
    if FreshRun(log, db) && AllServable(log, db) {
      var acts := SerialRunIsServed(log, db);
      assert IsHistoryOf(acts, db, log);
    }
    if acts :| IsHistoryOf(acts, db, log) {
      EveryInterleavingIsSerial(acts, db);
      HistoryIsServable(acts, db);
    }
  }
}
