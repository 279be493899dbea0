/**
 The MFA of one user along a run: the secret that was offered, whether it is confirmed,
 and the recovery codes that are unused.  A code is checked before the transaction that
 confirms the secret, so that other steps of the same user can come in between.
 */
module EnrolmentTraces {
  import opened Basics

  type SecretId = nat
  type Code = nat

  /** What one step of a run is to the user. */
  datatype Mark =
    | Started(secret: SecretId)
    | Showed(request: nat)
    | Enrolled(request: nat, codes: set<Code>)
    | Cleared
    | Rest

  datatype Standing = Standing(secret: Option<SecretId>, confirmed: bool, codes: set<Code>)

  datatype Trace = Trace(marks: seq<Mark>, standing: seq<Standing>)

  predicate Follows(a: Standing, m: Mark, b: Standing) {
    && (a.confirmed ==> a.secret.Some?)
    && match m
       case Started(x) => b.secret == Some(x) && !b.confirmed && b.codes <= a.codes
       case Showed(_) => b == a && a.secret.Some? && !a.confirmed
       case Enrolled(_, codes) => b.secret == a.secret && (b.confirmed <==> a.secret.Some?) && b.codes <= codes
       case Cleared => b.secret.None? && !b.confirmed && b.codes == {}
       case Rest => b.secret == a.secret && b.confirmed == a.confirmed && b.codes <= a.codes
  }

  predicate IsTrace(t: Trace) {
    && |t.standing| == |t.marks| + 1
    && forall k :: 0 <= k < |t.marks| ==> Follows(t.standing[k], t.marks[k], t.standing[k + 1])
  }

  /** Step i enrolled the user, and up to step n nothing cleared the enrolment or made
      another. */
  predicate LastEnrolment(t: Trace, i: nat, n: nat)
    requires n <= |t.marks|
  {
    i < n && t.marks[i].Enrolled? && forall m :: i < m < n ==> !t.marks[m].Cleared? && !t.marks[m].Enrolled?
  }

  /** From step a up to step b the secret is neither replaced nor removed. */
  predicate Quiet(t: Trace, a: nat, b: nat)
    requires b <= |t.marks|
  {
    forall m :: a <= m < b ==> !t.marks[m].Started? && !t.marks[m].Cleared?
  }

  lemma {:induction false} QuietKeepsSecret(t: Trace, a: nat, b: nat)
    requires IsTrace(t) && a <= b <= |t.marks| && Quiet(t, a, b)
    ensures t.standing[b].secret == t.standing[a].secret
    ensures t.standing[a].confirmed ==> t.standing[b].confirmed
  {
    if a < b {
      QuietKeepsSecret(t, a, b - 1);
      assert Follows(t.standing[b - 1], t.marks[b - 1], t.standing[b]);
    }
  }

  /** A recovery code that is unused was handed out by the last enrolment. */
  lemma {:induction false} CodeFromLastEnrolment(t: Trace, code: Code, n: nat) returns (i: nat)
    requires IsTrace(t) && n <= |t.marks| && code in t.standing[n].codes && t.standing[0].codes == {}
    ensures LastEnrolment(t, i, n) && code in t.marks[i].codes
  {
    assert Follows(t.standing[n - 1], t.marks[n - 1], t.standing[n]);
    if t.marks[n - 1].Enrolled? {
      i := n - 1;
    } else {
      i := CodeFromLastEnrolment(t, code, n - 1);
    }
  }

  /** A confirmed secret was confirmed by the last enrolment, and left alone since. */
  lemma {:induction false} SecretFromLastEnrolment(t: Trace, n: nat) returns (i: nat)
    requires IsTrace(t) && n <= |t.marks| && t.standing[n].confirmed && !t.standing[0].confirmed
    ensures LastEnrolment(t, i, n) && Quiet(t, i, n)
  {
    assert Follows(t.standing[n - 1], t.marks[n - 1], t.standing[n]);
    if t.marks[n - 1].Enrolled? {
      i := n - 1;
    } else {
      i := SecretFromLastEnrolment(t, n - 1);
    }
  }

  // ----- was a code shown for the secret in place? -----

  /** Secrets are drawn fresh. */
  predicate FreshSecrets(t: Trace) {
    forall a, b :: 0 <= a < b < |t.marks| && t.marks[a].Started? && t.marks[b].Started? ==>
      t.marks[a].secret != t.marks[b].secret
  }

  /** A code was shown at step k for the secret that is in place before step n. */
  predicate ShownAt(t: Trace, k: nat, n: nat)
    requires IsTrace(t) && n <= |t.marks|
  {
    k < n && t.marks[k].Showed? && t.standing[k].secret == t.standing[n].secret
  }

  ghost predicate Shown(t: Trace, n: nat)
    requires IsTrace(t) && n <= |t.marks|
  {
    exists k :: ShownAt(t, k, n)
  }

  /** A code was shown at step k, and up to step i the set-up was not started again. */
  predicate CheckStands(t: Trace, k: nat, i: nat)
    requires i <= |t.marks|
  {
    k < i && t.marks[k].Showed? && Quiet(t, k, i)
  }

  lemma {:induction false} SecretOrigin(t: Trace, n: nat) returns (b: nat)
    requires IsTrace(t) && n <= |t.marks| && t.standing[0].secret.None? && t.standing[n].secret.Some?
    ensures b < n && t.marks[b].Started? && Quiet(t, b + 1, n) && t.standing[n].secret == Some(t.marks[b].secret)
  {
    assert Follows(t.standing[n - 1], t.marks[n - 1], t.standing[n]);
    if t.marks[n - 1].Started? {
      b := n - 1;
    } else {
      b := SecretOrigin(t, n - 1);
    }
  }

  /** The same secret before two steps means that nothing replaced it in between. */
  lemma SameSecretQuiet(t: Trace, k: nat, n: nat)
    requires IsTrace(t) && FreshSecrets(t) && k <= n <= |t.marks| && t.standing[0].secret.None?
    requires t.standing[k].secret.Some? && t.standing[k].secret == t.standing[n].secret
    ensures Quiet(t, k, n)
  {
    var a := SecretOrigin(t, k);
    var b := SecretOrigin(t, n);
    assert a == b;
  }

  /** After the enrolment there is nothing left to show a code for. */
  lemma ShownBeforeEnrolment(t: Trace, k: nat, i: nat, n: nat)
    requires IsTrace(t) && n <= |t.marks| && LastEnrolment(t, i, n) && Quiet(t, i, n)
    requires t.standing[i].secret.Some? && k < n && t.marks[k].Showed?
    ensures k < i
  {
    assert Follows(t.standing[i], t.marks[i], t.standing[i + 1]);
    assert Follows(t.standing[k], t.marks[k], t.standing[k + 1]);
    if i < k {
      QuietKeepsSecret(t, i + 1, k);
    }
  }

  /** A code has been shown for a confirmed secret if and only if some code was shown
      before the confirmation with no new set-up between the two. */
  lemma ConfirmedSecretShownExactly(t: Trace, n: nat) returns (i: nat)
    requires IsTrace(t) && FreshSecrets(t) && n <= |t.marks| && t.standing[n].confirmed
    requires t.standing[0].secret.None? && !t.standing[0].confirmed
    ensures LastEnrolment(t, i, n) && Quiet(t, i, n)
    ensures Shown(t, n) <==> exists k :: CheckStands(t, k, i)
  {
    i := SecretFromLastEnrolment(t, n);
    QuietKeepsSecret(t, i, n);
    assert Follows(t.standing[n - 1], t.marks[n - 1], t.standing[n]);
    if k :| CheckStands(t, k, i) {
      QuietKeepsSecret(t, k, i);
      assert ShownAt(t, k, n);
    }
    if k :| ShownAt(t, k, n) {
      SameSecretQuiet(t, k, n);
      ShownBeforeEnrolment(t, k, i, n);
      assert CheckStands(t, k, i);
    }
  }

  // ----- requests -----

  /** Step k is the check that the confirmation at step i relies on. */
  predicate CheckOf(t: Trace, k: nat, i: nat) {
    k < i < |t.marks| && t.marks[i].Enrolled? && t.marks[k] == Showed(t.marks[i].request)
  }

  /** No confirmation without its check. */
  ghost predicate CheckedFirst(t: Trace) {
    forall i: nat :: i < |t.marks| && t.marks[i].Enrolled? ==> exists k: nat :: CheckOf(t, k, i)
  }

  /** A set-up started again between the check and the confirmation. */
  lemma RestartedUnshown(t: Trace, codes: set<Code>)
    requires IsTrace(t) && t.marks == [Started(1), Showed(7), Started(2), Enrolled(7, codes)]
    ensures FreshSecrets(t) && CheckedFirst(t) && t.standing[4].confirmed && !Shown(t, 4)
  {
    assert Follows(t.standing[0], t.marks[0], t.standing[1]) && Follows(t.standing[1], t.marks[1], t.standing[2]);
    assert Follows(t.standing[2], t.marks[2], t.standing[3]) && Follows(t.standing[3], t.marks[3], t.standing[4]);
    assert CheckOf(t, 1, 3);
  }
}
