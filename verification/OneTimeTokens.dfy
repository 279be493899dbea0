/** Password reset tokens: which of a user's tokens are unused, and once only. */
module OneTimeTokens {
  import opened Basics
  import opened AuthModel
  import opened TokenRequests

  function Unused(t: map<Hash, OneTimeToken>, u: UserId): set<Hash> {
    set h | h in t && t[h].userId == u && t[h].usedAt.None?
  }

  // ----- the effect of one event on the unused tokens of a user -----

  lemma StatementOnlyRetires(s: Stmt, db: Db, u: UserId)
    requires Applicable(s, db) && !s.InsertReset?
    ensures Unused(Do(s, db).resets, u) <= Unused(db.resets, u)
  {}

  lemma {:induction false} ProgramOnlyRetires(p: seq<Stmt>, db: Db, u: UserId)
    requires Run(p, db).Some? && forall s :: s in p ==> !s.InsertReset?
    ensures Unused(Run(p, db).value.resets, u) <= Unused(db.resets, u)
  {
    if p != [] {
      assert p[0] in p;
      assert forall s :: s in p[1..] ==> s in p;
      StatementOnlyRetires(p[0], db, u);
      ProgramOnlyRetires(p[1..], Do(p[0], db), u);
    }
  }

  /** A new reset token of user u is stored. */
  predicate Issues(e: Event, db: Db, u: UserId) {
    e.IssueReset? && e.user == u && u in db.users && e.newReset !in db.resets
  }

  predicate Retires(e: Event, db: Db, u: UserId) {
    e.RetireResets? && e.user == u && u in db.users
  }

  lemma RetireEffect(e: Event, db: Db)
    requires e.RetireResets? && e.user in db.users
    ensures Apply(e, db) == db.(resets := db.resets + UnusedOf(db.resets, e.user, e.now))
  {
    RunOne(UseResets(e.user, e.now), db);
  }

  lemma IssueEffect(e: Event, db: Db)
    requires e.IssueReset? && e.user in db.users
    ensures Apply(e, db) ==
      if e.newReset in db.resets then db
      else db.(resets := db.resets[e.newReset := OneTimeToken(e.user, e.now + RESET_TTL, None)])
  {
    RunOne(InsertReset(e.newReset, OneTimeToken(e.user, e.now + RESET_TTL, None)), db);
  }

  lemma OnlyRequestsIssue(e: Event, db: Db)
    requires !e.IssueReset?
    ensures forall s :: s in Program(e, db) ==> !s.InsertReset?
  {
    if e.AdminPatch? && e.user in db.users {
      assert forall s :: s in PatchProgram(e, db.users[e.user]) ==> !s.InsertReset?;
    }
  }

  function MarkOf(e: Event, db: Db, u: UserId): Mark {
    if Retires(e, db, u) then Retired(e.request)
    else if Issues(e, db, u) then Issued(e.request, e.newReset)
    else Other
  }

  lemma OthersOnlyRetire(e: Event, db: Db, u: UserId)
    requires !e.IssueReset?
    ensures Unused(Apply(e, db).resets, u) <= Unused(db.resets, u)
  {
    if Commits(e, db) {
      OnlyRequestsIssue(e, db);
      ProgramOnlyRetires(Program(e, db), db, u);
    }
  }

  lemma MarkFollows(e: Event, db: Db, u: UserId)
    ensures Follows(Unused(db.resets, u), MarkOf(e, db, u), Unused(Apply(e, db).resets, u))
  {
    if e.IssueReset? {
      if e.user in db.users {
        IssueEffect(e, db);
      }
    } else if Retires(e, db, u) {
      RetireEffect(e, db);
    } else {
      OthersOnlyRetire(e, db, u);
    }
  }

  // ----- runs -----

  /** What a run is to user u. */
  ghost function TraceOf(log: seq<Event>, db: Db, u: UserId): Trace {
    Trace(seq(|log|, k requires 0 <= k < |log| => MarkOf(log[k], At(log, db, k), u)),
          seq(|log| + 1, k requires 0 <= k <= |log| => Unused(At(log, db, k).resets, u)))
  }

  lemma TraceIsTrace(log: seq<Event>, db: Db, u: UserId)
    ensures IsTrace(TraceOf(log, db, u)) && TraceOf(log, db, u).unused[0] == Unused(db.resets, u)
  {
    var t := TraceOf(log, db, u);
    forall k | 0 <= k < |log| ensures Follows(t.unused[k], t.marks[k], t.unused[k + 1]) {
      ReplayStep(log, db, k);
      MarkFollows(log[k], At(log, db, k), u);
    }
    assert log[..0] == [];
  }

  /** Every request for a reset token retires the user's tokens before it issues one. */
  ghost predicate InOrder(log: seq<Event>, db: Db, u: UserId) {
    RetiredFirst(TraceOf(log, db, u).marks)
  }

  /** Between the two statements of the request that issues at step k, another request
      of the same user issued a token that is still unused. */
  ghost predicate OvertakenReset(log: seq<Event>, db: Db, u: UserId, k: nat)
    requires k < |log|
  {
    TraceIsTrace(log, db, u);
    Overtaken(TraceOf(log, db, u), k)
  }

  /** Over any run a user has at most one unused reset token at every moment if and only
      if no request of the user is overtaken by another. */
  lemma AtMostOneUnusedReset(log: seq<Event>, db: Db, u: UserId)
    requires InOrder(log, db, u) && AtMostOne(Unused(db.resets, u))
    ensures (forall k :: 0 <= k <= |log| ==> AtMostOne(Unused(At(log, db, k).resets, u))) <==>
            (forall k :: 0 <= k < |log| ==> !OvertakenReset(log, db, u, k))
  {
    var t := TraceOf(log, db, u);
    TraceIsTrace(log, db, u);
    OneUnusedExactly(t);
    assert forall k :: 0 <= k <= |log| ==> t.unused[k] == Unused(At(log, db, k).resets, u);
    assert forall k :: 0 <= k < |log| ==> (OvertakenReset(log, db, u, k) <==> Overtaken(t, k));
  }

  /** Then only the reset token issued last to the user can be unused. */
  lemma OnlyTheLatestResets(log: seq<Event>, db: Db, u: UserId)
    requires InOrder(log, db, u) && forall k :: 0 <= k < |log| ==> !OvertakenReset(log, db, u, k)
    ensures Unused(Replay(log, db).resets, u) <= Latest(TraceOf(log, db, u).marks, Unused(db.resets, u))
  {
    var t := TraceOf(log, db, u);
    TraceIsTrace(log, db, u);
    forall k | 0 <= k < |log| ensures !Overtaken(t, k) {
      assert !OvertakenReset(log, db, u, k);
    }
    OnlyTheLatest(t, |log|);
    assert t.marks[..|log|] == t.marks && log[..|log|] == log;
  }

  lemma RunOfFour(a: Event, b: Event, c: Event, d: Event, db: Db)
    ensures Replay([a, b, c, d], db) == Apply(d, Apply(c, Apply(b, Apply(a, db))))
  {
    assert [a, b, c, d][..3] == [a, b, c] && [a, b, c][..2] == [a, b] && [a, b][..1] == [a] && [a][..0] == [];
    assert Replay([a], db) == Apply(a, Replay([], db));
    assert Replay([a, b], db) == Apply(b, Replay([a], db));
    assert Replay([a, b, c], db) == Apply(c, Replay([a, b], db));
  }

  lemma RetiringKeepsRows(e: Event, db: Db)
    requires e.RetireResets? && e.user in db.users
    ensures Apply(e, db).users == db.users && Apply(e, db).resets.Keys == db.resets.Keys
  {
    RetireEffect(e, db);
  }

  /** Two overlapping requests of one user leave two tokens that both work. */
  lemma OverlapLeavesTwo(db: Db, u: UserId, now: Time, g: Hash, h: Hash)
    requires u in db.users && g !in db.resets && h !in db.resets && g != h
    ensures var end := Replay([RetireResets(now, u, 1), RetireResets(now, u, 2),
                               IssueReset(now, u, g, 1), IssueReset(now, u, h, 2)], db);
      ResetUsable(end, g, now) && ResetUsable(end, h, now)
  {
    var retire1, retire2 := RetireResets(now, u, 1), RetireResets(now, u, 2);
    var issue1, issue2 := IssueReset(now, u, g, 1), IssueReset(now, u, h, 2);
    RunOfFour(retire1, retire2, issue1, issue2, db);
    RetiringKeepsRows(retire1, db);
    var retired := Apply(retire2, Apply(retire1, db));
    RetiringKeepsRows(retire2, Apply(retire1, db));
    IssueEffect(issue1, retired);
    IssueEffect(issue2, Apply(issue1, retired));
  }

  // ----- each reset token works once -----

  ghost predicate Resets(e: Event, db: Db, h: Hash) {
    e.ResetPassword? && e.resetToken == h && ResetUsable(db, h, e.now)
  }

  lemma ResetSpends(e: Event, db: Db, u: UserId)
    requires e.ResetPassword? && Resets(e, db, e.resetToken)
    ensures e.resetToken !in Unused(Apply(e, db).resets, u)
  {
    var owner := db.resets[e.resetToken].userId;
    var changed := Do(UpdateUser(owner, PasswordReset(e.password)), db);
    var p := Program(e, db);
    RunConcat([p[0], p[1]], [p[2]], db);
    RunTwo(p[0], p[1], db);
    RunOne(p[2], Do(p[1], changed));
    assert p == [p[0], p[1]] + [p[2]];
    StatementOnlyRetires(p[2], Do(p[1], changed), u);
  }

  /** A spent token stays spent while the run does not issue the same one again. */
  lemma {:induction false} SpentStays(log: seq<Event>, db: Db, i: nat, u: UserId, h: Hash)
    requires i <= |log| && h !in Unused(At(log, db, i).resets, u)
    requires forall k :: i <= k < |log| ==> !(log[k].IssueReset? && log[k].newReset == h)
    ensures h !in Unused(Replay(log, db).resets, u)
  {
    if i == |log| {
      assert log[..i] == log;
    } else {
      var init := log[..|log| - 1];
      assert init[..i] == log[..i];
      SpentStays(init, db, i, u, h);
      MarkFollows(log[|log| - 1], Replay(init, db), u);
    }
  }

  /** Over any run a reset token resets a password at most once. */
  lemma ResetsOnce(log: seq<Event>, db: Db, i: nat, j: nat, h: Hash)
    requires i < j < |log| && Resets(log[i], At(log, db, i), h)
    requires forall k :: i < k < j ==> !(log[k].IssueReset? && log[k].newReset == h)
    ensures !Resets(log[j], At(log, db, j), h)
  {
    var before := log[..j];
    forall u: UserId ensures h !in Unused(Replay(before, db).resets, u) {
      ReplayStep(log, db, i);
      ResetSpends(log[i], At(log, db, i), u);
      assert before[..i + 1] == log[..i + 1];
      SpentStays(before, db, i + 1, u, h);
    }
    if h in Replay(before, db).resets {
      assert h !in Unused(Replay(before, db).resets, Replay(before, db).resets[h].userId);
    }
  }
}
