/**
 Fixed-window rate limiting: one abstract limiter, its two implementations, and what it
 guarantees over whole runs of requests.
 */
module RateLimit {
  import opened Basics

  type Key = nat
  type Time = int

  const SECOND: int := 1000000

  /** A row of rate_limit_buckets; times are microseconds. */
  datatype Bucket = Bucket(count: nat, started: Time, expires: Time)

  /** The upsert: a missing or expired bucket starts a new window. */
  function Hit(b: Option<Bucket>, now: Time, window: int): Bucket {
    if b.None? || b.value.expires <= now then Bucket(1, now, now + window)
    else b.value.(count := b.value.count + 1)
  }

  function Lookup<K(==), V>(m: map<K, V>, k: K): Option<V> {
    if k in m then Some(m[k]) else None
  }

  /** GREATEST(0, CEIL(seconds until the bucket expires)) */
  function RetryAfter(b: Bucket, now: Time): nat {
    if b.expires <= now then 0 else (b.expires - now + SECOND - 1) / SECOND
  }

  // ----- the PostgreSQL limiter -----

  class PgLimiter {
    var buckets: map<Key, Bucket>

    constructor ()
      ensures buckets == map[]
    {
      buckets := map[];
    }

    method AllowRequest(key: Key, now: Time, limit: nat, windowSeconds: nat) returns (allowed: bool, retryAfter: nat)
      modifies this
      ensures buckets == old(buckets)[key := Hit(Lookup(old(buckets), key), now, windowSeconds * 1000000)]
      ensures allowed <==> buckets[key].count <= limit
      ensures retryAfter == RetryAfter(buckets[key], now)
    {
      var window := windowSeconds * SECOND;
      if key !in buckets {
        buckets := buckets[key := Bucket(1, now, now + window)];
      } else {
        var row := buckets[key];
        var count := if row.expires <= now then 1 else row.count + 1;
        var started := if row.expires <= now then now else row.started;
        var expires := if row.expires <= now then now + window else row.expires;
        buckets := buckets[key := Bucket(count, started, expires)];
      }
      allowed := buckets[key].count <= limit;
      retryAfter := RetryAfter(buckets[key], now);
    }

    method Cleanup(now: Time)
      modifies this
      ensures buckets == map k | k in old(buckets) && !(old(buckets)[k].expires < now) :: old(buckets)[k]
      ensures forall k :: Lookup(buckets, k) == Delete(Lookup(old(buckets), k), now)
    {
      buckets := map k | k in buckets && !(buckets[k].expires < now) :: buckets[k];
    }
  }

  // ----- the contact form's limiter -----

  const CONTACT_WINDOW: int := 10 * 60 * 1000
  const CONTACT_LIMIT: nat := 5

  /** An entry of the in-process map; times are milliseconds. */
  datatype Slot = Slot(count: nat, resetAt: Time)

  function AsBucket(s: Option<Slot>): Option<Bucket> {
    match s
    case None => None
    case Some(x) => Some(Bucket(x.count, x.resetAt - 600000, x.resetAt))
  }

  class ContactLimiter {
    var buckets: map<Key, Slot>

    constructor ()
      ensures buckets == map[]
    {
      buckets := map[];
    }

    /** The map refines the abstract limiter, and leaves other addresses alone. */
    method RateLimit(key: Key, now: Time) returns (allowed: bool)
      modifies this
      ensures key in buckets && buckets == old(buckets)[key := buckets[key]]
      ensures AsBucket(Lookup(buckets, key)) == Some(Hit(AsBucket(Lookup(old(buckets), key)), now, 600000))
      ensures allowed <==> Hit(AsBucket(Lookup(old(buckets), key)), now, 600000).count <= 5
    {
      if key !in buckets || buckets[key].resetAt <= now {
        buckets := buckets[key := Slot(1, now + CONTACT_WINDOW)];
        return true;
      }
      buckets := buckets[key := buckets[key].(count := buckets[key].count + 1)];
      return buckets[key].count <= CONTACT_LIMIT;
    }
  }

  // ----- runs of one bucket -----

  predicate Monotone(times: seq<Time>) {
    forall i, j :: 0 <= i <= j < |times| ==> times[i] <= times[j]
  }

  /** The bucket after requests at these times. */
  function After(times: seq<Time>, window: int): Option<Bucket> {
    if times == [] then None
    else Some(Hit(After(times[..|times| - 1], window), times[|times| - 1], window))
  }

  /** The i-th request is allowed. */
  predicate Allowed(times: seq<Time>, window: int, limit: nat, i: nat)
    requires i < |times|
  {
    After(times[..i + 1], window).value.count <= limit
  }

  /** The request that opened the window of the i-th one. */
  function Opener(times: seq<Time>, window: int, i: nat): (f: nat)
    requires i < |times|
    ensures f <= i
  {
    if i == 0 then 0
    else
      var f := Opener(times, window, i - 1);
      if times[f] + window <= times[i] then i else f
  }

  /** What the bucket records: its place within the window and the window's bounds. */
  lemma {:induction false} BucketIsWindow(times: seq<Time>, window: int, i: nat)
    requires i < |times|
    ensures var f := Opener(times, window, i);
      After(times[..i + 1], window) == Some(Bucket(i - f + 1, times[f], times[f] + window))
  {
    assert times[..i + 1][..i] == times[..i];
    if i > 0 {
      BucketIsWindow(times, window, i - 1);
    } else {
      assert times[..0] == [];
    }
  }

  lemma {:induction false} OpenerOfOpener(times: seq<Time>, window: int, i: nat)
    requires i < |times|
    ensures Opener(times, window, Opener(times, window, i)) == Opener(times, window, i)
  {
    if i > 0 {
      OpenerOfOpener(times, window, i - 1);
    }
  }

  /** Windows do not overlap. */
  lemma {:induction false} WindowsApart(times: seq<Time>, window: int, i: nat, j: nat)
    requires i <= j < |times| && window > 0 && Monotone(times)
    ensures var f, g := Opener(times, window, i), Opener(times, window, j);
      f == g || (i < g && times[f] + window <= times[g])
  {
    if i < j {
      WindowsApart(times, window, i, j - 1);
    }
  }

  function Range(from: nat, count: nat): (s: set<nat>)
    ensures |s| == count && forall k :: k in s <==> from <= k < from + count
  {
    if count == 0 then {} else Range(from, count - 1) + {from + count - 1}
  }

  lemma Cardinality(a: set<nat>, b: set<nat>)
    requires a <= b
    ensures |a| <= |b|
  {
    assert b == a + (b - a);
  }

  /** The allowed requests of one window. */
  function AllowedInWindow(times: seq<Time>, window: int, limit: nat, f: nat): set<nat> {
    set i: nat | i < |times| && Opener(times, window, i) == f && Allowed(times, window, limit, i)
  }

  lemma AllowedAreFirst(times: seq<Time>, window: int, limit: nat, i: nat)
    requires i < |times| && Allowed(times, window, limit, i)
    ensures i in Range(Opener(times, window, i), limit)
  {
    BucketIsWindow(times, window, i);
  }

  /** At most `limit` requests are allowed per window. */
  lemma LimitPerWindow(times: seq<Time>, window: int, limit: nat, f: nat)
    ensures |AllowedInWindow(times, window, limit, f)| <= limit
  {
    forall i | i in AllowedInWindow(times, window, limit, f)
      ensures i in Range(f, limit)
    {
      AllowedAreFirst(times, window, limit, i);
    }
    Cardinality(AllowedInWindow(times, window, limit, f), Range(f, limit));
  }

  /** The allowed requests in the half-open interval of one window length from a. */
  function AllowedFrom(times: seq<Time>, window: int, limit: nat, a: Time): set<nat> {
    set i: nat | i < |times| && a <= times[i] < a + window && Allowed(times, window, limit, i)
  }

  /** At most two windows meet any interval as long as a window. */
  lemma TwoWindows(times: seq<Time>, window: int, a: Time, i: nat, j: nat, k: nat)
    requires window > 0 && Monotone(times) && i <= j <= k < |times|
    requires a <= times[i] && times[k] < a + window
    ensures Opener(times, window, j) == Opener(times, window, i)
         || Opener(times, window, k) == Opener(times, window, j)
  {
    WindowsApart(times, window, i, j);
    WindowsApart(times, window, j, k);
  }

  /** Over any run at most twice the limit is allowed in any interval of one window
      length, wherever it starts. */
  lemma SlidingBound(times: seq<Time>, window: int, limit: nat, a: Time)
    requires window > 0 && Monotone(times)
    ensures |AllowedFrom(times, window, limit, a)| <= 2 * limit
  {
    var s := AllowedFrom(times, window, limit, a);
    if s != {} {
      var i, k := Ends(s);
      var f, g := Opener(times, window, i), Opener(times, window, k);
      forall j | j in s
        ensures j in Range(f, limit) + Range(g, limit)
      {
        TwoWindows(times, window, a, i, j, k);
        AllowedAreFirst(times, window, limit, j);
      }
      Cardinality(s, Range(f, limit) + Range(g, limit));
    }
  }

  lemma {:induction false} Ends(s: set<nat>) returns (low: nat, high: nat)
    requires s != {}
    ensures low in s && high in s && forall x :: x in s ==> low <= x <= high
    decreases s
  {
    var x :| x in s;
    if s == {x} {
      return x, x;
    }
    var l, h := Ends(s - {x});
    low, high := if x < l then x else l, if x > h then x else h;
    assert forall y :: y in s ==> y == x || y in s - {x};
  }

  // ----- cleanup -----

  datatype Op = Request(now: Time) | Cleanup(now: Time)

  function Delete(b: Option<Bucket>, now: Time): Option<Bucket> {
    if b.Some? && b.value.expires < now then None else b
  }

  function Execute(ops: seq<Op>, window: int): Option<Bucket> {
    if ops == [] then None
    else
      var b := Execute(ops[..|ops| - 1], window);
      match ops[|ops| - 1]
      case Request(now) => Some(Hit(b, now, window))
      case Cleanup(now) => Delete(b, now)
  }

  function Requests(ops: seq<Op>): seq<Time> {
    if ops == [] then []
    else Requests(ops[..|ops| - 1]) + if ops[|ops| - 1].Request? then [ops[|ops| - 1].now] else []
  }

  predicate InOrder(ops: seq<Op>) {
    forall i, j :: 0 <= i <= j < |ops| ==> ops[i].now <= ops[j].now
  }

  /** Deleting expired buckets changes no later decision: with or without cleanups, the
      next request finds a bucket that is treated the same. */
  lemma {:induction false} CleanupIsInvisible(ops: seq<Op>, window: int, now: Time)
    requires InOrder(ops + [Op.Request(now)])
    ensures Hit(Execute(ops, window), now, window) == Hit(After(Requests(ops), window), now, window)
  {
    if ops != [] {
      var init, last := ops[..|ops| - 1], ops[|ops| - 1];
      assert (ops + [Op.Request(now)])[|ops|].now == now && (ops + [Op.Request(now)])[|ops| - 1] == last;
      forall i, j | 0 <= i <= j < |init| + 1
        ensures (init + [Op.Request(last.now)])[i].now <= (init + [Op.Request(last.now)])[j].now
        ensures (init + [Op.Request(now)])[i].now <= (init + [Op.Request(now)])[j].now
      {
        assert (ops + [Op.Request(now)])[i].now <= (ops + [Op.Request(now)])[j].now;
        assert (ops + [Op.Request(now)])[i].now <= (ops + [Op.Request(now)])[|ops|].now;
      }
      match last
      case Request(t) =>
        CleanupIsInvisible(init, window, t);
        assert Requests(ops) == Requests(init) + [t];
        assert Requests(ops)[..|Requests(ops)| - 1] == Requests(init);
      case Cleanup(t) =>
        CleanupIsInvisible(init, window, now);
        assert Requests(ops) == Requests(init);
    }
  }

  // ----- waiting -----

  /** After a refusal, with no other traffic, the next request is allowed exactly when
      the window has expired: waiting `retryAfter` seconds is enough, one second less
      is not. */
  lemma WaitingRetryAfter(b: Option<Bucket>, now: Time, later: Time, window: int, limit: nat)
    requires limit > 0 && window > 0 && later >= now
    requires Hit(b, now, window).count > limit
    ensures var row := Hit(b, now, window);
      && (Hit(Some(row), later, window).count <= limit <==> row.expires <= later)
      && (later >= now + RetryAfter(row, now) * 1000000 ==> Hit(Some(row), later, window).count <= limit)
      && (later == now + (RetryAfter(row, now) - 1) * 1000000 ==> Hit(Some(row), later, window).count > limit)
  {}
}
