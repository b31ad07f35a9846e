/** The fixed-window rate limiter and the bound it gives for every sliding window. */
module RateLimiter {
  import opened Common

  const SECOND := 1_000_000_000

  datatype Bucket = Bucket(resetAt: Time, count: nat)

  type Buckets = map<string, Bucket>

  /** The bucket that a request at `now` is counted in, before it is counted. */
  function Current(buckets: Buckets, window: int, scope: string, now: Time): Bucket {
    var b := if scope in buckets then buckets[scope] else Bucket(ZERO_TIME, 0);
    if b.resetAt == ZERO_TIME || now >= b.resetAt then Bucket(now + window, 0) else b
  }

  function Counted(buckets: Buckets, window: int, scope: string, now: Time): Buckets {
    var b := Current(buckets, window, scope, now);
    buckets[scope := b.(count := b.count + 1)]
  }

  class Limiter {
    const limit: int
    const window: int
    var buckets: Buckets

    constructor (limit: int, window: int)
      ensures this.limit == limit && this.window == window && buckets == map[]
    {
      this.limit, this.window, buckets := limit, window, map[];
    }

    /** `later` is the clock when the waiting time is computed. */
    method Allow(scope: string, now: Time, later: Time) returns (ok: bool, retryAfter: int)
      modifies this
      ensures buckets == Counted(old(buckets), window, scope, now)
      ensures ok <==> buckets[scope].count <= limit
      ensures ok ==> retryAfter == 0
      ensures !ok ==> 1 <= retryAfter
      ensures !ok && SECOND <= buckets[scope].resetAt - later ==>
                retryAfter * SECOND <= buckets[scope].resetAt - later < (retryAfter + 1) * SECOND
      ensures !ok && buckets[scope].resetAt - later < SECOND ==> retryAfter == 1
    {
      var bucket := if scope in buckets then buckets[scope] else Bucket(ZERO_TIME, 0);
      if bucket.resetAt == ZERO_TIME || now >= bucket.resetAt {
        bucket := Bucket(now + window, 0);
      }
      bucket := bucket.(count := bucket.count + 1);
      buckets := buckets[scope := bucket];
      if bucket.count <= limit {
        return true, 0;
      }
      var left := bucket.resetAt - later;
      retryAfter := if left < 0 then 0 else left / SECOND;
      if retryAfter < 1 {
        retryAfter := 1;
      }
      ok := false;
    }
  }

  // ---------------------------------------------------------------- runs

  datatype Request = Request(scope: string, at: Time)

  function Run(window: int, reqs: seq<Request>): Buckets {
    if reqs == [] then map[]
    else Counted(Run(window, reqs[..|reqs| - 1]), window, reqs[|reqs| - 1].scope, reqs[|reqs| - 1].at)
  }

  /** The bucket of the last request, the request included. */
  function BucketOfLast(window: int, reqs: seq<Request>): Bucket
    requires reqs != []
  {
    Run(window, reqs)[reqs[|reqs| - 1].scope]
  }

  predicate LastAllowed(limit: int, window: int, reqs: seq<Request>)
    requires reqs != []
  {
    BucketOfLast(window, reqs).count <= limit
  }

  /** The allowed requests of a scope with lo <= time < hi. */
  function Allowed(limit: int, window: int, reqs: seq<Request>, scope: string, lo: Time, hi: Time): nat {
    if reqs == [] then 0 else
    var last := reqs[|reqs| - 1];
    Allowed(limit, window, reqs[..|reqs| - 1], scope, lo, hi) +
    (if last.scope == scope && lo <= last.at < hi && LastAllowed(limit, window, reqs) then 1 else 0)
  }

  /** The allowed requests of a scope that were counted in the bucket that began at `start`. */
  function AllowedInBucket(limit: int, window: int, reqs: seq<Request>, scope: string, start: Time): nat {
    if reqs == [] then 0 else
    var last := reqs[|reqs| - 1];
    AllowedInBucket(limit, window, reqs[..|reqs| - 1], scope, start) +
    (if last.scope == scope && BucketOfLast(window, reqs).resetAt == start + window
        && LastAllowed(limit, window, reqs) then 1 else 0)
  }

  /** The allowed requests of a scope in the half-open interval of one window from lo. */
  function InWindow(limit: int, window: int, reqs: seq<Request>, scope: string, lo: Time): nat {
    Allowed(limit, window, reqs, scope, lo, lo + window)
  }

  predicate ClockForward(reqs: seq<Request>) {
    && (forall i :: 0 <= i < |reqs| ==> ZERO_TIME < reqs[i].at)
    && (forall i, j :: 0 <= i < j < |reqs| ==> reqs[i].at <= reqs[j].at)
  }

  function AtLeastZero(n: int): nat {
    if n < 0 then 0 else n
  }

  function Min(a: int, b: int): int {
    if a < b then a else b
  }

  lemma {:induction false} AllowedSplits(limit: int, window: int, reqs: seq<Request>, scope: string, lo: Time,
      mid: Time, hi: Time)
    requires lo <= mid <= hi
    ensures Allowed(limit, window, reqs, scope, lo, hi) ==
            Allowed(limit, window, reqs, scope, lo, mid) + Allowed(limit, window, reqs, scope, mid, hi)
  {
    if reqs != [] {
      AllowedSplits(limit, window, reqs[..|reqs| - 1], scope, lo, mid, hi);
    }
  }

  lemma {:induction false} EmptyInterval(limit: int, window: int, reqs: seq<Request>, scope: string, lo: Time, hi: Time)
    requires hi <= lo
    ensures Allowed(limit, window, reqs, scope, lo, hi) == 0
  {
    if reqs != [] {
      EmptyInterval(limit, window, reqs[..|reqs| - 1], scope, lo, hi);
    }
  }

  /** What is known of an interval, by where it lies relative to the current bucket. */
  predicate Bounded(limit: int, window: int, b: Bucket, lo: Time, hi: Time, n: nat) {
    var start, max := b.resetAt - window, AtLeastZero(limit);
    && 1 <= b.count && ZERO_TIME < b.resetAt
    && (lo >= b.resetAt ==> n == 0)
    && (lo >= start ==> n <= Min(b.count, max))
    && (lo > start ==> n <= AtLeastZero(Min(b.count, max) - 1))
    && (lo > start - window && hi <= start ==> n <= AtLeastZero(max - 1))
    && (hi <= lo + window ==> n <= AtLeastZero(2 * max - 1))
  }

  lemma {:induction false} BucketBeganEarlier(window: int, reqs: seq<Request>, scope: string, now: Time)
    requires 0 < window && ClockForward(reqs) && forall i :: 0 <= i < |reqs| ==> reqs[i].at <= now
    ensures scope in Run(window, reqs) ==>
              && ZERO_TIME < Run(window, reqs)[scope].resetAt - window <= now
              && 1 <= Run(window, reqs)[scope].count
  {
    if reqs != [] {
      var rest := reqs[..|reqs| - 1];
      BucketBeganEarlier(window, rest, scope, reqs[|reqs| - 1].at);
    }
  }

  /** One more request of the scope, at `now`: n, left and right are the counts so far of
      [lo, hi) and of its parts before and from the start of the current bucket. */
  lemma RequestKeepsBounded(limit: int, window: int, buckets: Buckets, scope: string, now: Time,
                            lo: Time, hi: Time, n: nat, left: nat, right: nat)
    requires 0 < window && ZERO_TIME < now
    requires scope in buckets ==>
               Bounded(limit, window, buckets[scope], lo, hi, n) && buckets[scope].resetAt - window <= now
    requires scope !in buckets ==> n == 0
    requires var start := Current(buckets, window, scope, now).resetAt - window;
             lo <= now < hi && lo < start && scope in buckets ==>
               n == left + right && Bounded(limit, window, buckets[scope], lo, start, left)
               && Bounded(limit, window, buckets[scope], start, hi, right)
    ensures var b := Counted(buckets, window, scope, now)[scope];
            Bounded(limit, window, b, lo, hi, n + if lo <= now < hi && b.count <= limit then 1 else 0)
  {}

  lemma {:induction false} IntervalBounded(limit: int, window: int, reqs: seq<Request>, scope: string, lo: Time,
                                           hi: Time)
    requires 0 < window && ClockForward(reqs)
    ensures var n := Allowed(limit, window, reqs, scope, lo, hi);
            if scope in Run(window, reqs) then Bounded(limit, window, Run(window, reqs)[scope], lo, hi, n) else n == 0
  {
    hide Bounded;
    if reqs != [] {
      var rest, last := reqs[..|reqs| - 1], reqs[|reqs| - 1];
      IntervalBounded(limit, window, rest, scope, lo, hi);
      if last.scope == scope {
        BucketBeganEarlier(window, rest, scope, last.at);
        var buckets := Run(window, rest);
        var start := Current(buckets, window, scope, last.at).resetAt - window;
        if lo <= last.at < hi && lo < start {
          AllowedSplits(limit, window, rest, scope, lo, start, hi);
          IntervalBounded(limit, window, rest, scope, lo, start);
          IntervalBounded(limit, window, rest, scope, start, hi);
        }
        RequestKeepsBounded(limit, window, buckets, scope, last.at, lo, hi,
                            Allowed(limit, window, rest, scope, lo, hi),
                            Allowed(limit, window, rest, scope, lo, start),
                            Allowed(limit, window, rest, scope, start, hi));
      }
    }
  }

  /** In every half-open interval as long as the window at most 2 * limit - 1 requests of a
      scope are allowed, whatever the scopes and times of all requests. */
  lemma SlidingBound(limit: int, window: int, reqs: seq<Request>, scope: string, lo: Time)
    requires ClockForward(reqs)
    ensures InWindow(limit, window, reqs, scope, lo) <= AtLeastZero(2 * AtLeastZero(limit) - 1)
  {
    if 0 < window {
      IntervalBounded(limit, window, reqs, scope, lo, lo + window);
    } else {
      EmptyInterval(limit, window, reqs, scope, lo, lo + window);
    }
  }

  /** At most `limit` requests are allowed in one bucket. */
  lemma {:induction false} BucketBound(limit: int, window: int, reqs: seq<Request>, scope: string, start: Time)
    requires 0 < window && ClockForward(reqs)
    ensures var n := AllowedInBucket(limit, window, reqs, scope, start);
            && n <= AtLeastZero(limit)
            && (scope !in Run(window, reqs) ==> n == 0)
            && (scope in Run(window, reqs) ==>
                  var b := Run(window, reqs)[scope];
                  && (b.resetAt < start + window ==> n == 0)
                  && (b.resetAt == start + window ==> n <= b.count))
  {
    if reqs != [] {
      var rest, last := reqs[..|reqs| - 1], reqs[|reqs| - 1];
      BucketBound(limit, window, rest, scope, start);
      BucketBeganEarlier(window, rest, scope, last.at);
    }
  }

  /** k requests of one scope at one time. */
  function Burst(scope: string, at: Time, k: nat): seq<Request> {
    seq(k, _ => Request(scope, at))
  }

  /** A request that still has room in the current bucket is allowed. */
  lemma RoomIsAllowed(limit: int, window: int, reqs: seq<Request>, scope: string, at: Time, lo: Time, hi: Time)
    requires scope in Run(window, reqs) && ZERO_TIME != Run(window, reqs)[scope].resetAt && lo <= at < hi
    requires at < Run(window, reqs)[scope].resetAt && Run(window, reqs)[scope].count + 1 <= limit
    ensures var more := reqs + [Request(scope, at)];
            && scope in Run(window, more)
            && Run(window, more)[scope] == Bucket(Run(window, reqs)[scope].resetAt, Run(window, reqs)[scope].count + 1)
            && Allowed(limit, window, more, scope, lo, hi) == Allowed(limit, window, reqs, scope, lo, hi) + 1
  {
    assert (reqs + [Request(scope, at)])[..|reqs|] == reqs;
  }

  /** A burst that still has room in the current bucket is allowed as a whole. */
  lemma {:induction false} BurstIsAllowed(limit: int, window: int, reqs: seq<Request>, scope: string, at: Time, k: nat,
                                          lo: Time, hi: Time)
    requires scope in Run(window, reqs) && ZERO_TIME != Run(window, reqs)[scope].resetAt && lo <= at < hi
    requires at < Run(window, reqs)[scope].resetAt && Run(window, reqs)[scope].count + k <= limit
    ensures var more := reqs + Burst(scope, at, k);
            && scope in Run(window, more)
            && Run(window, more)[scope] == Bucket(Run(window, reqs)[scope].resetAt, Run(window, reqs)[scope].count + k)
            && Allowed(limit, window, more, scope, lo, hi) == Allowed(limit, window, reqs, scope, lo, hi) + k
  {
    hide Run, Allowed;
    if k == 0 {
      assert reqs + Burst(scope, at, k) == reqs;
    } else {
      var most := reqs + Burst(scope, at, k - 1);
      BurstIsAllowed(limit, window, reqs, scope, at, k - 1, lo, hi);
      RoomIsAllowed(limit, window, most, scope, at, lo, hi);
      assert reqs + Burst(scope, at, k) == most + [Request(scope, at)];
    }
  }

  /** A request that opens a bucket is allowed. */
  lemma OpeningIsAllowed(limit: int, window: int, reqs: seq<Request>, scope: string, at: Time, lo: Time, hi: Time)
    requires 1 <= limit
    requires scope in Run(window, reqs) ==> at >= Run(window, reqs)[scope].resetAt
    ensures var more := reqs + [Request(scope, at)];
            && scope in Run(window, more) && Run(window, more)[scope] == Bucket(at + window, 1)
            && Allowed(limit, window, more, scope, lo, hi) ==
               Allowed(limit, window, reqs, scope, lo, hi) + if lo <= at < hi then 1 else 0
  {
    assert (reqs + [Request(scope, at)])[..|reqs|] == reqs;
  }

  /** One request at 1, the rest of its bucket at its very end, and a full bucket right after. */
  function TightRun(limit: int, window: int, scope: string): seq<Request>
    requires 1 <= limit
  {
    [Request(scope, 1)] + Burst(scope, window, limit - 1) + [Request(scope, window + 1)]
    + Burst(scope, window + 1, limit - 1)
  }

  /** The bound cannot be lowered, whatever the limit and the window: there is a run with
      2 * limit - 1 allowed requests within one window. */
  lemma SlidingBoundIsTight(limit: int, window: int, scope: string)
    requires 1 <= limit && 2 <= window
    ensures ClockForward(TightRun(limit, window, scope))
    ensures InWindow(limit, window, TightRun(limit, window, scope), scope, 2) == 2 * limit - 1
  {
    hide Run, Allowed, ClockForward, Burst;
    TightRunIsForward(limit, window, scope);
    var first := [Request(scope, 1)];
    var full := first + Burst(scope, window, limit - 1);
    var next := full + [Request(scope, window + 1)];
    assert [] + first == first;
    NoRequests(limit, window, scope, 2, 2 + window);
    OpeningIsAllowed(limit, window, [], scope, 1, 2, 2 + window);
    BurstIsAllowed(limit, window, first, scope, window, limit - 1, 2, 2 + window);
    OpeningIsAllowed(limit, window, full, scope, window + 1, 2, 2 + window);
    BurstIsAllowed(limit, window, next, scope, window + 1, limit - 1, 2, 2 + window);
  }

  lemma NoRequests(limit: int, window: int, scope: string, lo: Time, hi: Time)
    ensures Run(window, []) == map[] && Allowed(limit, window, [], scope, lo, hi) == 0
  {}

  lemma TightRunIsForward(limit: int, window: int, scope: string)
    requires 1 <= limit && 1 <= window
    ensures ClockForward(TightRun(limit, window, scope))
  {
    var reqs := TightRun(limit, window, scope);
    forall i | 0 <= i < |reqs|
      ensures reqs[i].at == if i == 0 then 1 else if i < limit then window else window + 1
    {}
  }

  /** In a window of one tick the requests within a window are those of one bucket. */
  lemma {:induction false} OneTickIsOneBucket(limit: int, reqs: seq<Request>, scope: string, lo: Time)
    requires ClockForward(reqs)
    ensures Allowed(limit, 1, reqs, scope, lo, lo + 1) == AllowedInBucket(limit, 1, reqs, scope, lo)
  {
    if reqs != [] {
      var rest, last := reqs[..|reqs| - 1], reqs[|reqs| - 1];
      OneTickIsOneBucket(limit, rest, scope, lo);
      BucketBeganEarlier(1, rest, last.scope, last.at);
    }
  }

  /** No run exceeds `limit` within any window. */
  ghost predicate NeverExceedsLimit(limit: int, window: int) {
    forall reqs: seq<Request>, scope: string, lo: Time ::
      ClockForward(reqs) ==> InWindow(limit, window, reqs, scope, lo) <= AtLeastZero(limit)
  }

  /** The limit holds for sliding windows exactly when it is at most one or the window is a
      single tick of the clock. */
  lemma LimitSlidesExactlyWhen(limit: int, window: int)
    ensures NeverExceedsLimit(limit, window) <==> limit <= 1 || window <= 1
  {
    if limit <= 1 || window <= 1 {
      forall reqs: seq<Request>, scope: string, lo: Time | ClockForward(reqs)
        ensures InWindow(limit, window, reqs, scope, lo) <= AtLeastZero(limit)
      {
        SlidingBound(limit, window, reqs, scope, lo);
        if window == 1 {
          OneTickIsOneBucket(limit, reqs, scope, lo);
          BucketBound(limit, 1, reqs, scope, lo);
        } else if window <= 0 {
          EmptyInterval(limit, window, reqs, scope, lo, lo + window);
        }
      }
    } else {
      var reqs := TightRun(limit, window, "");
      SlidingBoundIsTight(limit, window, "");
      hide InWindow, TightRun, ClockForward;
      assert InWindow(limit, window, reqs, "", 2) > AtLeastZero(limit);
    }
  }

  lemma {:induction false} BucketCounts(limit: int, window: int, reqs: seq<Request>, scope: string)
    requires 0 < window && ClockForward(reqs) && scope in Run(window, reqs)
    ensures var b := Run(window, reqs)[scope];
            AllowedInBucket(limit, window, reqs, scope, b.resetAt - window) == Min(b.count, AtLeastZero(limit))
  {
    var rest, last := reqs[..|reqs| - 1], reqs[|reqs| - 1];
    BucketBeganEarlier(window, rest, scope, last.at);
    var start := Run(window, reqs)[scope].resetAt - window;
    BucketBound(limit, window, rest, scope, start);
    if scope in Run(window, rest) {
      BucketCounts(limit, window, rest, scope);
    }
  }

  /** A request is allowed exactly when fewer than `limit` requests before it were allowed in
      its bucket; other scopes play no part. */
  lemma AllowedExactlyWhileBucketHasRoom(limit: int, window: int, reqs: seq<Request>)
    requires 0 < window && reqs != [] && ClockForward(reqs)
    ensures var rest, last, start := reqs[..|reqs| - 1], reqs[|reqs| - 1], BucketOfLast(window, reqs).resetAt - window;
            LastAllowed(limit, window, reqs) <==> AllowedInBucket(limit, window, rest, last.scope, start) < limit
  {
    var rest, last := reqs[..|reqs| - 1], reqs[|reqs| - 1];
    var start := BucketOfLast(window, reqs).resetAt - window;
    BucketBeganEarlier(window, rest, last.scope, last.at);
    BucketBound(limit, window, rest, last.scope, start);
    if last.scope in Run(window, rest) {
      BucketCounts(limit, window, rest, last.scope);
    }
  }

  /** A scope's buckets begin at least a window apart. */
  lemma {:induction false} BucketsApart(window: int, reqs: seq<Request>, scope: string, n: nat)
    requires 0 < window && ClockForward(reqs) && n <= |reqs| && scope in Run(window, reqs[..n])
    ensures scope in Run(window, reqs)
    ensures var first, last := Run(window, reqs[..n])[scope].resetAt, Run(window, reqs)[scope].resetAt;
            last == first || last >= first + window
    decreases |reqs|
  {
    if n < |reqs| {
      var rest := reqs[..|reqs| - 1];
      assert rest[..n] == reqs[..n];
      BucketsApart(window, rest, scope, n);
      BucketBeganEarlier(window, rest, scope, reqs[|reqs| - 1].at);
    } else {
      assert reqs[..n] == reqs;
    }
  }
}
