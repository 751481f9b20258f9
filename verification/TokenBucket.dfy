/** One key's token bucket: it is refilled lazily, at each hit, and still decides as a bucket refilled all
    the time would. */
module TokenBucket {
  import opened Reals

  type Time = real

  /** What decides every hit: the tokens a bucket holds, the tokens earned by each moment, and the cap on
      buckets. The limiter earns at a constant rate; the proofs need only that `earned` never falls. */
  datatype Config = Config(capacity: real, earned: Time -> real, maxBuckets: int)

  ghost predicate ValidConfig(c: Config) {
    c.capacity >= 1.0 && c.maxBuckets > 0 && forall a, b | a <= b :: c.earned(a) <= c.earned(b)
  }

  datatype Bucket = Bucket(tokens: real, lastRefill: Time)

  /** The tokens available at `t`: refilled since the last hit, up to the capacity. */
  function Level(c: Config, b: Bucket, t: Time): real {
    Min(c.capacity, b.tokens + Max(0.0, c.earned(t) - c.earned(b.lastRefill)))
  }

  predicate Allows(c: Config, b: Bucket, t: Time) {
    Level(c, b, t) >= 1.0
  }

  function Drain(c: Config, b: Bucket, t: Time): Bucket {
    Bucket(if Allows(c, b, t) then Level(c, b, t) - 1.0 else Level(c, b, t), t)
  }

  function FullBucket(c: Config, t: Time): Bucket {
    Bucket(c.capacity, t)
  }

  /** Looking later adds what was earned in between, up to the capacity. */
  lemma {:induction false} LevelLater(c: Config, b: Bucket, t: Time, later: Time)
    requires ValidConfig(c) && b.lastRefill <= t <= later
    ensures Level(c, b, later) == Min(c.capacity, Level(c, b, t) + c.earned(later) - c.earned(t))
  {
    assert c.earned(b.lastRefill) <= c.earned(t) <= c.earned(later);
  }

  /** A denied hit leaves no trace: every later hit decides, and leaves the bucket, as it would have
      without it. */
  lemma {:induction false} DeniedHitLeavesNoTrace(c: Config, b: Bucket, t: Time, later: Time)
    requires ValidConfig(c) && b.lastRefill <= t <= later && !Allows(c, b, t)
    ensures Allows(c, Drain(c, b, t), later) == Allows(c, b, later)
    ensures Drain(c, Drain(c, b, t), later) == Drain(c, b, later)
  {
    LevelLater(c, b, t, later);
    LevelLater(c, Drain(c, b, t), t, later);
  }

  /** The bucket refilled at every moment of `ticks`, with no hit among them. */
  function RefilledAt(c: Config, b: Bucket, ticks: seq<Time>): Bucket
    decreases |ticks|
  {
    if ticks == [] then b else RefilledAt(c, Bucket(Level(c, b, ticks[0]), ticks[0]), ticks[1..])
  }

  predicate OrderedTicks(start: Time, ticks: seq<Time>, end: Time)
    decreases |ticks|
  {
    if ticks == [] then start <= end else start <= ticks[0] && OrderedTicks(ticks[0], ticks[1..], end)
  }

  lemma {:induction false} TicksAreInside(start: Time, ticks: seq<Time>, end: Time)
    requires OrderedTicks(start, ticks, end)
    ensures start <= end
    decreases |ticks|
  {
    if ticks != [] {
      TicksAreInside(ticks[0], ticks[1..], end);
    }
  }

  /** Refilling only at the next hit is as good as refilling all the time: a bucket refilled at any moments
      in between stands at the same level. */
  lemma {:induction false} LazyRefillIsEager(c: Config, b: Bucket, ticks: seq<Time>, t: Time)
    requires ValidConfig(c) && OrderedTicks(b.lastRefill, ticks, t)
    ensures Level(c, RefilledAt(c, b, ticks), t) == Level(c, b, t)
    decreases |ticks|
  {
    if ticks != [] {
      var refilled := Bucket(Level(c, b, ticks[0]), ticks[0]);
      LazyRefillIsEager(c, refilled, ticks[1..], t);
      TicksAreInside(ticks[0], ticks[1..], t);
      LevelLater(c, b, ticks[0], t);
      LevelLater(c, refilled, ticks[0], t);
    }
  }

  /** Whether a bucket would allow after a wait. */
  lemma {:induction false} AllowedAfterWaiting(c: Config, b: Bucket, t: Time, later: Time)
    requires ValidConfig(c) && b.lastRefill <= t <= later
    ensures Allows(c, b, later) <==> Level(c, b, t) + c.earned(later) - c.earned(t) >= 1.0
  {
    LevelLater(c, b, t, later);
  }

  // ---- All the hits of one key -------------------------------------------

  predicate Ordered(times: seq<Time>) {
    forall i | 0 < i < |times| :: times[i - 1] <= times[i]
  }

  /** The bucket before a hit: made at the first hit, drained by each one since. */
  function BucketBefore(c: Config, times: seq<Time>, n: nat): Bucket
    requires n < |times|
  {
    if n == 0 then FullBucket(c, times[0]) else Drain(c, BucketBefore(c, times, n - 1), times[n - 1])
  }

  predicate HitAllowed(c: Config, times: seq<Time>, n: nat)
    requires n < |times|
  {
    Allows(c, BucketBefore(c, times, n), times[n])
  }

  /** How many of the hits from `i` up to `n` were allowed. */
  function AllowedBetween(c: Config, times: seq<Time>, i: nat, n: nat): nat
    requires i <= n <= |times|
    decreases n
  {
    if i == n then 0 else AllowedBetween(c, times, i, n - 1) + if HitAllowed(c, times, n - 1) then 1 else 0
  }

  /** What the hits from `i` on may still take at hit `n`: a full bucket at `i` and what was earned since,
      less what they took. */
  function Allowance(c: Config, times: seq<Time>, i: nat, n: nat): real
    requires i <= n < |times|
  {
    c.capacity + c.earned(times[n]) - c.earned(times[i]) - AllowedBetween(c, times, i, n) as real
  }

  lemma {:induction false} LevelAtHit(c: Config, times: seq<Time>, n: nat)
    requires ValidConfig(c) && Ordered(times) && 0 < n < |times|
    ensures Level(c, BucketBefore(c, times, n), times[n]) ==
            Min(c.capacity,
                Level(c, BucketBefore(c, times, n - 1), times[n - 1]) -
                (if HitAllowed(c, times, n - 1) then 1.0 else 0.0) + c.earned(times[n]) - c.earned(times[n - 1]))
  {
    assert times[n - 1] <= times[n];
  }

  lemma {:induction false} AllowanceStep(c: Config, times: seq<Time>, i: nat, n: nat)
    requires i < n < |times|
    ensures Allowance(c, times, i, n) ==
            Allowance(c, times, i, n - 1) -
            (if HitAllowed(c, times, n - 1) then 1.0 else 0.0) + c.earned(times[n]) - c.earned(times[n - 1])
  {
  }

  /** The level at a hit is the least allowance over all starting points. */
  lemma {:induction false} LevelIsLeastAllowance(c: Config, times: seq<Time>, n: nat) returns (tightest: nat)
    requires ValidConfig(c) && Ordered(times) && n < |times|
    ensures tightest <= n && Level(c, BucketBefore(c, times, n), times[n]) == Allowance(c, times, tightest, n)
    ensures forall i | 0 <= i <= n :: Level(c, BucketBefore(c, times, n), times[n]) <= Allowance(c, times, i, n)
  {
    tightest := n;
    if n > 0 {
      LevelAtHit(c, times, n);
      var before := LevelIsLeastAllowance(c, times, n - 1);
      AllowanceStep(c, times, before, n);
      forall i | 0 <= i < n
        ensures Level(c, BucketBefore(c, times, n), times[n]) <= Allowance(c, times, i, n)
      {
        AllowanceStep(c, times, i, n);
        assert Level(c, BucketBefore(c, times, n - 1), times[n - 1]) <= Allowance(c, times, i, n - 1);
      }
      if Allowance(c, times, before, n) < c.capacity {
        tightest := before;
      }
    }
  }

  /** With one more hit at `n`, the hits allowed since `i` stay within the capacity and what was earned. */
  predicate WithinWindow(c: Config, times: seq<Time>, i: nat, n: nat)
    requires i <= n < |times|
  {
    AllowedBetween(c, times, i, n) as real + 1.0 <= c.capacity + c.earned(times[n]) - c.earned(times[i])
  }

  /** A hit is allowed if and only if, with it, the hits allowed since each earlier hit still number at most
      the capacity and what was earned since then: the limiter denies only where it must. */
  lemma {:induction false} AllowedIffWithinEveryWindow(c: Config, times: seq<Time>, n: nat)
    requires ValidConfig(c) && Ordered(times) && n < |times|
    ensures HitAllowed(c, times, n) <==> forall i | 0 <= i <= n :: WithinWindow(c, times, i, n)
  {
    var tightest := LevelIsLeastAllowance(c, times, n);
    if HitAllowed(c, times, n) {
      forall i | 0 <= i <= n
        ensures WithinWindow(c, times, i, n)
      {
        assert Level(c, BucketBefore(c, times, n), times[n]) <= Allowance(c, times, i, n);
      }
    } else {
      assert !WithinWindow(c, times, tightest, n);
    }
  }

  // ---- Denied hits -------------------------------------------------------

  /** The hits without the one at `d`. */
  function Dropped(times: seq<Time>, d: nat): (rest: seq<Time>)
    requires d < |times|
    ensures |rest| == |times| - 1
  {
    times[..d] + times[d + 1..]
  }

  lemma {:induction false} BucketOfPrefix(c: Config, a: seq<Time>, b: seq<Time>, n: nat)
    requires n < |a| && n < |b| && a[0] == b[0] && forall i | 0 <= i < n :: a[i] == b[i]
    ensures BucketBefore(c, a, n) == BucketBefore(c, b, n)
  {
    if n > 0 {
      BucketOfPrefix(c, a, b, n - 1);
    }
  }

  lemma {:induction false} FirstHitIsAllowed(c: Config, times: seq<Time>)
    requires ValidConfig(c) && times != []
    ensures HitAllowed(c, times, 0)
  {
  }

  lemma {:induction false} DroppedAt(times: seq<Time>, d: nat, n: nat)
    requires d < |times| && n < |times| && n != d
    ensures Dropped(times, d)[if n < d then n else n - 1] == times[n]
  {
  }

  /** The hit right after a denied one finds and leaves what it would have without it. */
  lemma {:induction false} NextAfterDenied(c: Config, times: seq<Time>, d: nat)
    requires ValidConfig(c) && Ordered(times) && 0 < d < |times| - 1 && !HitAllowed(c, times, d)
    ensures HitAllowed(c, times, d + 1) <==> Allows(c, BucketBefore(c, times, d), times[d + 1])
    ensures Drain(c, BucketBefore(c, times, d + 1), times[d + 1]) == Drain(c, BucketBefore(c, times, d), times[d + 1])
  {
    assert times[d - 1] <= times[d] <= times[d + 1];
    DeniedHitLeavesNoTrace(c, BucketBefore(c, times, d), times[d], times[d + 1]);
  }

  lemma {:induction false} LaterBucketsAgree(c: Config, times: seq<Time>, d: nat, n: nat)
    requires ValidConfig(c) && Ordered(times) && 0 < d && d + 1 < n < |times| && !HitAllowed(c, times, d)
    ensures BucketBefore(c, times, n) == BucketBefore(c, Dropped(times, d), n - 1)
  {
    DroppedAt(times, d, n - 1);
    if n == d + 2 {
      NextAfterDenied(c, times, d);
      BucketOfPrefix(c, times, Dropped(times, d), d);
    } else {
      LaterBucketsAgree(c, times, d, n - 1);
    }
  }

  /** Taking a denied hit out of the history changes no later decision, and no bucket after the next hit. */
  lemma {:induction false} DeniedHitsDoNotMatter(c: Config, times: seq<Time>, d: nat, n: nat)
    requires ValidConfig(c) && Ordered(times) && d < n < |times| && !HitAllowed(c, times, d)
    ensures HitAllowed(c, times, n) <==> HitAllowed(c, Dropped(times, d), n - 1)
    ensures n > d + 1 ==> BucketBefore(c, times, n) == BucketBefore(c, Dropped(times, d), n - 1)
  {
    FirstHitIsAllowed(c, times);
    DroppedAt(times, d, n);
    if n == d + 1 {
      NextAfterDenied(c, times, d);
      BucketOfPrefix(c, times, Dropped(times, d), d);
    } else {
      LaterBucketsAgree(c, times, d, n);
    }
  }
}
