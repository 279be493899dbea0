/**
 Requests that replace a user's one-time token in two separate statements: one retires
 the tokens that are still unused, a later one adds the new token.  A trace follows the
 unused tokens of one user through a run in which such requests may overlap.
 */
module TokenRequests {

  type Token = nat

  /** What one step of a run is to the user. */
  datatype Mark = Retired(request: nat) | Issued(request: nat, token: Token) | Other

  datatype Trace = Trace(marks: seq<Mark>, unused: seq<set<Token>>)

  predicate AtMostOne(s: set<Token>) {
    forall x, y :: x in s && y in s ==> x == y
  }

  predicate Follows(before: set<Token>, m: Mark, after: set<Token>) {
    match m
    case Retired(_) => after == {}
    case Issued(_, t) => t !in before && after == before + {t}
    case Other => after <= before
  }

  predicate IsTrace(t: Trace) {
    && |t.unused| == |t.marks| + 1
    && forall k :: 0 <= k < |t.marks| ==> Follows(t.unused[k], t.marks[k], t.unused[k + 1])
  }

  /** Step i is the first statement of the request whose second one is step k. */
  predicate Opens(marks: seq<Mark>, i: nat, k: nat) {
    i < k < |marks| && marks[k].Issued? && marks[i] == Retired(marks[k].request)
  }

  /** Every request sends its first statement before its second. */
  ghost predicate RetiredFirst(marks: seq<Mark>) {
    forall k :: 0 <= k < |marks| && marks[k].Issued? ==> exists i: nat :: Opens(marks, i, k)
  }

  /** Between the two statements of the request that issues at step k, another one issued
      the token of step m. */
  predicate Between(marks: seq<Mark>, i: nat, m: nat, k: nat) {
    Opens(marks, i, k) && i < m < k && marks[m].Issued?
  }

  /** The request that issues at step k was overtaken: another one issued a token between
      its two statements, and that token is still unused. */
  ghost predicate Overtaken(t: Trace, k: nat)
    requires IsTrace(t) && k < |t.marks|
  {
    exists i: nat, m: nat :: Between(t.marks, i, m, k) && t.marks[m].token in t.unused[k]
  }

  lemma {:induction false} UnusedWasIssued(t: Trace, i: nat, k: nat, x: Token) returns (m: nat)
    requires IsTrace(t) && i < k <= |t.marks| && x in t.unused[k] && x !in t.unused[i]
    ensures i <= m < k && t.marks[m].Issued? && t.marks[m].token == x
  {
    assert Follows(t.unused[k - 1], t.marks[k - 1], t.unused[k]);
    if x in t.unused[k - 1] {
      m := UnusedWasIssued(t, i, k - 1, x);
    } else {
      m := k - 1;
    }
  }

  /** A request that was not overtaken finds nothing unused. */
  lemma NotOvertaken(t: Trace, k: nat)
    requires IsTrace(t) && RetiredFirst(t.marks) && k < |t.marks| && t.marks[k].Issued? && !Overtaken(t, k)
    ensures t.unused[k] == {}
  {
    var i: nat :| Opens(t.marks, i, k);
    assert Follows(t.unused[i], t.marks[i], t.unused[i + 1]);
    if x :| x in t.unused[k] {
      var m := UnusedWasIssued(t, i + 1, k, x);
      assert Between(t.marks, i, m, k);
    }
  }

  /** One that was overtaken leaves two. */
  lemma OvertakenLeavesTwo(t: Trace, k: nat)
    requires IsTrace(t) && k < |t.marks| && Overtaken(t, k)
    ensures !AtMostOne(t.unused[k + 1])
  {
    var i: nat, m: nat :| Between(t.marks, i, m, k) && t.marks[m].token in t.unused[k];
    assert Follows(t.unused[k], t.marks[k], t.unused[k + 1]);
    assert t.marks[m].token in t.unused[k + 1] && t.marks[k].token in t.unused[k + 1];
  }

  lemma {:induction false} OneWhileNotOvertaken(t: Trace, k: nat)
    requires IsTrace(t) && RetiredFirst(t.marks) && k <= |t.marks| && AtMostOne(t.unused[0])
    requires forall m :: 0 <= m < k ==> !Overtaken(t, m)
    ensures AtMostOne(t.unused[k])
  {
    if k > 0 {
      OneWhileNotOvertaken(t, k - 1);
      assert Follows(t.unused[k - 1], t.marks[k - 1], t.unused[k]);
      if t.marks[k - 1].Issued? {
        NotOvertaken(t, k - 1);
      }
    }
  }

  /** The user has at most one unused token at every moment if and only if no request is
      overtaken. */
  lemma OneUnusedExactly(t: Trace)
    requires IsTrace(t) && RetiredFirst(t.marks) && AtMostOne(t.unused[0])
    ensures (forall k :: 0 <= k <= |t.marks| ==> AtMostOne(t.unused[k])) <==>
            (forall k :: 0 <= k < |t.marks| ==> !Overtaken(t, k))
  {
    if forall k :: 0 <= k < |t.marks| ==> !Overtaken(t, k) {
      forall k | 0 <= k <= |t.marks| ensures AtMostOne(t.unused[k]) {
        OneWhileNotOvertaken(t, k);
      }
    } else {
      var k :| 0 <= k < |t.marks| && Overtaken(t, k);
      OvertakenLeavesTwo(t, k);
      assert !AtMostOne(t.unused[k + 1]);
    }
  }

  /** The token issued last, or what was unused at the start. */
  function Latest(marks: seq<Mark>, first: set<Token>): set<Token> {
    if marks == [] then first
    else if marks[|marks| - 1].Issued? then {marks[|marks| - 1].token}
    else Latest(marks[..|marks| - 1], first)
  }

  /** While no request is overtaken only the token issued last is unused. */
  lemma {:induction false} OnlyTheLatest(t: Trace, k: nat)
    requires IsTrace(t) && RetiredFirst(t.marks) && k <= |t.marks|
    requires forall m :: 0 <= m < k ==> !Overtaken(t, m)
    ensures t.unused[k] <= Latest(t.marks[..k], t.unused[0])
  {
    if k > 0 {
      OnlyTheLatest(t, k - 1);
      assert Follows(t.unused[k - 1], t.marks[k - 1], t.unused[k]);
      assert t.marks[..k][..k - 1] == t.marks[..k - 1];
      if t.marks[k - 1].Issued? {
        NotOvertaken(t, k - 1);
      }
    }
  }
}
