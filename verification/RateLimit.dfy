/** The token-bucket limiter: a bounded map of buckets, oldest hit first, which a hit updates in place. */
module RateLimit {
  import opened Wrappers
  import opened OrderedDict
  import opened Reals
  import opened TokenBucket

  type Key = string
  type Buckets = Dict<Key, Bucket>

  /** The bucket that a hit finds, or makes. */
  function BucketAt(c: Config, d: Buckets, key: Key, t: Time): Bucket {
    var b := Lookup(d, key);
    if b.Some? then b.value else FullBucket(c, t)
  }

  /** The map after a hit: the key's bucket is the newest, and an overflow drops the oldest. */
  function HitBuckets(c: Config, d: Buckets, key: Key, t: Time): Buckets {
    var next := Without(d, key) + [(key, Drain(c, BucketAt(c, d, key, t), t))];
    if |next| > c.maxBuckets then next[1..] else next
  }

  /** The least whole number not below `x`. */
  function Ceil(x: real): (n: int)
    ensures n as real >= x && n as real - 1.0 < x
  {
    -((-x).Floor)
  }

  /** Whether a hit would be allowed a whole number of seconds later. */
  predicate AllowsAfter(c: Config, b: Bucket, now: Time, seconds: int) {
    Allows(c, b, now + seconds as real)
  }

  class Limiter {
    const capacity: real
    const windowSeconds: real
    const refillPerSec: real
    const maxBuckets: int
    var buckets: Buckets

    ghost predicate Valid()
      reads this
    {
      capacity >= 1.0 && refillPerSec > 0.0 && maxBuckets > 0 && Distinct(buckets) && |buckets| <= maxBuckets
    }

    /** The bucket refills once per window. */
    predicate RefillsPerWindow() {
      windowSeconds > 0.0 && refillPerSec == capacity / windowSeconds
    }

    /** At `t` the limiter has earned `t` seconds' worth of tokens: between two moments, their distance times
        the refill rate. */
    ghost function Settings(): Config {
      Config(capacity, t => t * refillPerSec, maxBuckets)
    }

    constructor (capacity: int, windowSeconds: real, maxBuckets: int)
      requires capacity > 0 && windowSeconds > 0.0 && maxBuckets > 0
      ensures Valid() && buckets == []
      ensures this.capacity == capacity as real && this.maxBuckets == maxBuckets
      ensures this.windowSeconds == windowSeconds && RefillsPerWindow()
    {
      this.capacity := capacity as real;
      this.windowSeconds := windowSeconds;
      this.refillPerSec := capacity as real / windowSeconds;
      this.maxBuckets := maxBuckets;
      buckets := [];
      new;
      QuotientIsPositive(capacity as real, windowSeconds);
    }

    method Hit(key: Key, now: Time) returns (allowed: bool)
      requires Valid()
      modifies this
      ensures Valid()
      ensures allowed == Allows(Settings(), BucketAt(Settings(), old(buckets), key, now), now)
      ensures buckets == HitBuckets(Settings(), old(buckets), key, now)
      ensures Lookup(buckets, key).Some?
    {
      ghost var before := buckets;
      ghost var c := Settings();
      var bucket: Bucket;
      var found := Lookup(buckets, key);
      if found.None? {
        bucket := Bucket(capacity, now);
        buckets := buckets + [(key, bucket)];
        if |buckets| > maxBuckets {
          buckets := buckets[1..];
        }
        HitNewKey(c, before, key, now);
      } else {
        bucket := found.value;
        buckets := Without(buckets, key) + [(key, bucket)];
        HitKnownKey(c, before, key, now);
      }
      HitKeepsSound(c, before, key, now);
      var tokens := Tokens(bucket, now);
      allowed := tokens >= 1.0;
      // The newest entry is the one just found or made; its bucket is overwritten in place.
      buckets := buckets[..|buckets| - 1] + [(key, Bucket(if allowed then tokens - 1.0 else tokens, now))];
      assert buckets == HitBuckets(c, before, key, now);
    }

    /** The refill both operations begin with. */
    function Tokens(bucket: Bucket, now: Time): (tokens: real)
      requires refillPerSec > 0.0
      ensures tokens == Level(Settings(), bucket, now)
    {
      RefillIsLinear(bucket.lastRefill, now, refillPerSec);
      Min(capacity, bucket.tokens + Max(0.0, now - bucket.lastRefill) * refillPerSec)
    }

    /** Whole seconds until a hit would be allowed: the least such number above zero. */
    method RetryAfter(key: Key, now: Time) returns (seconds: int)
      requires Valid()
      ensures seconds >= 1
      ensures var b := Lookup(buckets, key);
              if b.None? then seconds == 1
              else b.value.lastRefill <= now ==>
                     forall s | 1 <= s <= seconds :: AllowsAfter(Settings(), b.value, now, s) <==> s == seconds
    {
      ghost var c := Settings();
      var found := Lookup(buckets, key);
      if found.None? {
        return 1;
      }
      var bucket := found.value;
      var tokens := Tokens(bucket, now);
      if tokens >= 1.0 {
        if bucket.lastRefill <= now {
          EarnsAtRate(refillPerSec, now, 1);
          SettingsAreValid();
          AllowedAfterWaiting(c, bucket, now, now + 1 as real);
        }
        return 1;
      }
      var wait := Ceil((1.0 - tokens) / refillPerSec);
      seconds := if wait < 1 then 1 else wait;
      if bucket.lastRefill <= now {
        WaitIsLeast(bucket, now, tokens, seconds);
      }
    }

    /** After a denial, the deficit over the refill rate, rounded up, is the least wait. */
    lemma {:induction false} WaitIsLeast(bucket: Bucket, now: Time, tokens: real, seconds: int)
      requires Valid() && bucket.lastRefill <= now && tokens == Level(Settings(), bucket, now) < 1.0
      requires var wait := Ceil((1.0 - tokens) / refillPerSec); seconds == if wait < 1 then 1 else wait
      ensures forall s | 1 <= s <= seconds :: AllowsAfter(Settings(), bucket, now, s) <==> s == seconds
    {
      var c := Settings();
      WaitIsPositive(1.0 - tokens, refillPerSec);
      SettingsAreValid();
      forall s | 1 <= s <= seconds
        ensures AllowsAfter(c, bucket, now, s) <==> s == seconds
      {
        AllowedAfterWaiting(c, bucket, now, now + s as real);
        EarnsAtRate(refillPerSec, now, s);
        CeilIsLeast(1.0 - tokens, refillPerSec, s);
      }
    }

    lemma {:induction false} SettingsAreValid()
      requires Valid()
      ensures ValidConfig(Settings())
    {
      forall a: real, b: real | a <= b
        ensures Settings().earned(a) <= Settings().earned(b)
      {
        ScaleKeepsOrder(a, b, refillPerSec);
      }
    }
  }

  // ---- Arithmetic --------------------------------------------------------

  lemma {:induction false} QuotientIsPositive(x: real, y: real)
    requires x > 0.0 && y > 0.0
    ensures x / y > 0.0 && x / y * y == x
  {
  }

  lemma {:induction false} RefillIsLinear(a: real, b: real, r: real)
    requires r > 0.0
    ensures Max(0.0, b - a) * r == Max(0.0, b * r - a * r)
  {
    assert (b - a) * r == b * r - a * r;
    if b > a {
      ScaleKeepsOrder(a, b, r);
    } else {
      ScaleKeepsOrder(b, a, r);
      assert 0.0 * r == 0.0;
    }
  }

  lemma {:induction false} EarnsAtRate(r: real, t: Time, s: int)
    requires r > 0.0
    ensures (t + s as real) * r - t * r == s as real * r
    ensures s >= 0 ==> s as real * r >= 0.0
  {
  }

  lemma {:induction false} WaitIsPositive(deficit: real, r: real)
    requires deficit > 0.0 && r > 0.0
    ensures Ceil(deficit / r) >= 1
  {
    QuotientIsPositive(deficit, r);
  }

  lemma {:induction false} CeilIsLeast(deficit: real, r: real, s: int)
    requires r > 0.0
    ensures s as real * r >= deficit <==> s >= Ceil(deficit / r)
  {
    var q := deficit / r;
    assert q * r == deficit;
    if s >= Ceil(q) {
      ScaleKeepsOrder(q, s as real, r);
    } else {
      ScaleKeepsOrder(s as real, q, r);
    }
  }

  // ---- One hit -----------------------------------------------------------

  lemma {:induction false} HitNewKey(c: Config, d: Buckets, key: Key, t: Time)
    requires c.maxBuckets > 0 && Lookup(d, key).None?
    ensures var next := d + [(key, Drain(c, FullBucket(c, t), t))];
            HitBuckets(c, d, key, t) == if |next| > c.maxBuckets then next[1..] else next
  {
    WithoutAbsent(d, key);
  }

  lemma {:induction false} HitKnownKey(c: Config, d: Buckets, key: Key, t: Time)
    requires Distinct(d) && |d| <= c.maxBuckets && Lookup(d, key).Some?
    ensures HitBuckets(c, d, key, t) == Without(d, key) + [(key, Drain(c, Lookup(d, key).value, t))]
  {
    LookupFindsKeys(d, key);
    WithoutDropsKey(d, key);
  }

  /** After a hit the keys are distinct and within the cap, and the key just hit is not the one dropped. */
  lemma {:induction false} HitKeepsSound(c: Config, d: Buckets, key: Key, t: Time)
    requires c.maxBuckets > 0 && Distinct(d) && |d| <= c.maxBuckets
    ensures var next := HitBuckets(c, d, key, t);
            Distinct(next) && |next| <= c.maxBuckets && KeySet(next) <= KeySet(d) + {key} &&
            Lookup(next, key) == Some(Drain(c, BucketAt(c, d, key, t), t))
  {
    var drained := Drain(c, BucketAt(c, d, key, t), t);
    var next := Without(d, key) + [(key, drained)];
    WithoutDropsKey(d, key);
    AppendAddsKey(Without(d, key), key, drained);
    AppendKeepsOthers(Without(d, key), key, drained, key);
    if |next| > c.maxBuckets {
      assert Without(d, key)[0] == next[0];
      assert next[0].0 in KeySet(Without(d, key));
      PopKeepsOthers(next, key);
    }
  }

  /** Another key keeps its bucket, unless the map was full, the key hit was new, and the bucket was the
      one dropped. */
  lemma {:induction false} HitOfAnotherKey(c: Config, d: Buckets, key: Key, t: Time, other: Key)
    requires Distinct(d) && |d| <= c.maxBuckets && other != key
    ensures var next := HitBuckets(c, d, key, t);
            Lookup(next, other) == Lookup(d, other) ||
            (Lookup(d, other).Some? && Lookup(next, other).None? && |d| == c.maxBuckets && key !in KeySet(d))
  {
    var drained := Drain(c, BucketAt(c, d, key, t), t);
    var next := Without(d, key) + [(key, drained)];
    WithoutDropsKey(d, key);
    WithoutKeepsOthers(d, key, other);
    AppendAddsKey(Without(d, key), key, drained);
    AppendKeepsOthers(Without(d, key), key, drained, other);
    if |next| > c.maxBuckets {
      PopKeepsOthers(next, other);
      LookupFindsKeys(next[1..], other);
      LookupFindsKeys(next, other);
    }
  }

  // ---- Histories of hits -------------------------------------------------

  datatype Event = Event(key: Key, at: Time)

  predicate InOrder(events: seq<Event>) {
    forall i | 0 < i < |events| :: events[i - 1].at <= events[i].at
  }

  /** The map before a hit, from an empty one. */
  function BucketsAt(c: Config, events: seq<Event>, n: nat): Buckets
    requires n <= |events|
  {
    if n == 0 then [] else HitBuckets(c, BucketsAt(c, events, n - 1), events[n - 1].key, events[n - 1].at)
  }

  predicate EventAllowed(c: Config, events: seq<Event>, n: nat)
    requires n < |events|
  {
    Allows(c, BucketAt(c, BucketsAt(c, events, n), events[n].key, events[n].at), events[n].at)
  }

  /** Whether a hit takes a token of the key. */
  predicate Takes(c: Config, events: seq<Event>, key: Key, n: nat) {
    n < |events| && events[n].key == key && EventAllowed(c, events, n)
  }

  /** Whether a hit drops the key's bucket. */
  predicate Evicts(c: Config, events: seq<Event>, key: Key, n: nat) {
    n < |events| && Lookup(BucketsAt(c, events, n), key).Some? && Lookup(BucketsAt(c, events, n + 1), key).None?
  }

  /** How many of the numbers from `i` up to `n` have a property. */
  function Count(p: nat -> bool, i: nat, n: nat): nat
    requires i <= n
    decreases n
  {
    if i == n then 0 else Count(p, i, n - 1) + if p(n - 1) then 1 else 0
  }

  /** The keys are distinct and within the cap, and the key's bucket holds between no tokens and all, as
      of a past hit. */
  predicate Sound(c: Config, d: Buckets, key: Key, t: Time) {
    Distinct(d) && |d| <= c.maxBuckets &&
    match Lookup(d, key)
    case None => true
    case Some(b) => b.lastRefill <= t && 0.0 <= b.tokens <= c.capacity
  }

  /** The tokens the key could draw on at `t`. */
  function Available(c: Config, d: Buckets, key: Key, t: Time): real {
    Level(c, BucketAt(c, d, key, t), t)
  }

  lemma {:induction false} AvailableIsBounded(c: Config, d: Buckets, key: Key, t: Time)
    requires ValidConfig(c) && Sound(c, d, key, t)
    ensures 0.0 <= Available(c, d, key, t) <= c.capacity
  {
  }

  lemma {:induction false} AvailableGrows(c: Config, d: Buckets, key: Key, t: Time, later: Time)
    requires ValidConfig(c) && Sound(c, d, key, t) && t <= later
    ensures Available(c, d, key, later) <= Available(c, d, key, t) + c.earned(later) - c.earned(t)
  {
    if Lookup(d, key).Some? {
      LevelLater(c, Lookup(d, key).value, t, later);
    } else {
      assert c.earned(t) <= c.earned(later);
    }
  }

  /** A hit takes what it allows out of the key's tokens; only dropping the bucket puts a full one back. */
  lemma {:induction false} HitPays(c: Config, d: Buckets, e: Event, key: Key)
    requires ValidConfig(c) && Sound(c, d, key, e.at)
    ensures var next := HitBuckets(c, d, e.key, e.at);
            Sound(c, next, key, e.at) &&
            Available(c, next, key, e.at) +
            (if e.key == key && Allows(c, BucketAt(c, d, key, e.at), e.at) then 1.0 else 0.0) <=
            Available(c, d, key, e.at) +
            (if Lookup(d, key).Some? && Lookup(next, key).None? then c.capacity else 0.0)
  {
    HitKeepsSound(c, d, e.key, e.at);
    AvailableIsBounded(c, d, key, e.at);
    if e.key != key {
      HitOfAnotherKey(c, d, e.key, e.at, key);
    }
  }

  lemma {:induction false} HistoryKeepsSound(c: Config, events: seq<Event>, key: Key, n: nat, t: Time)
    requires ValidConfig(c) && InOrder(events) && n <= |events|
    requires n == 0 || events[n - 1].at <= t
    ensures Sound(c, BucketsAt(c, events, n), key, t)
    decreases n
  {
    if n > 0 {
      HistoryKeepsSound(c, events, key, n - 1, events[n - 1].at);
      HitPays(c, BucketsAt(c, events, n - 1), events[n - 1], key);
    }
  }

  /** The capacity once, and once more for each eviction. */
  function Refunds(capacity: real, evictions: nat): real {
    if evictions == 0 then capacity else Refunds(capacity, evictions - 1) + capacity
  }

  lemma {:induction false} RefundsAreMultiples(capacity: real, evictions: nat)
    ensures Refunds(capacity, evictions) == capacity * (1 + evictions) as real
  {
    if evictions > 0 {
      RefundsAreMultiples(capacity, evictions - 1);
      assert (1 + evictions) as real == evictions as real + 1.0;
    }
  }

  /** What each hit takes, is refunded, earns and leaves. */
  datatype Ledger = Ledger(capacity: real, left: nat -> real, takes: nat -> bool, refunds: nat -> bool,
                           earned: nat -> real)

  /** A hit pays for what it takes out of what was left (at first, at most the capacity), what was earned
      since, and what is refunded. */
  predicate Pays(l: Ledger, first: nat, k: nat) {
    l.left(k + 1) + (if l.takes(k) then 1.0 else 0.0) <=
    (if k <= first then l.capacity else l.left(k) + l.earned(k) - l.earned(k - 1)) +
    (if l.refunds(k) then l.capacity else 0.0)
  }

  lemma {:induction false} LedgerBalances(l: Ledger, i: nat, n: nat)
    requires i < n && forall k | i <= k < n :: Pays(l, i, k)
    ensures Count(l.takes, i, n) as real + l.left(n) <=
            Refunds(l.capacity, Count(l.refunds, i, n)) + l.earned(n - 1) - l.earned(i)
    decreases n
  {
    assert Pays(l, i, n - 1);
    if i < n - 1 {
      LedgerBalances(l, i, n - 1);
    }
  }

  /** The tokens left to the key after `n` hits. */
  function LeftAfter(c: Config, events: seq<Event>, key: Key, n: nat): real {
    if 0 < n <= |events| then Available(c, BucketsAt(c, events, n), key, events[n - 1].at) else 0.0
  }

  function EarnedAt(c: Config, events: seq<Event>, n: nat): real {
    if n < |events| then c.earned(events[n].at) else 0.0
  }

  function LedgerOf(c: Config, events: seq<Event>, key: Key): Ledger {
    Ledger(c.capacity, (k: nat) => LeftAfter(c, events, key, k), (k: nat) => Takes(c, events, key, k),
           (k: nat) => Evicts(c, events, key, k), (k: nat) => EarnedAt(c, events, k))
  }

  /** How many hits of the key from `i` up to `n` were allowed. */
  function AllowedOf(c: Config, events: seq<Event>, key: Key, i: nat, n: nat): nat
    requires i <= n
  {
    Count(LedgerOf(c, events, key).takes, i, n)
  }

  /** How often the hits from `i` up to `n` dropped the key's bucket. */
  function EvictionsOf(c: Config, events: seq<Event>, key: Key, i: nat, n: nat): nat
    requires i <= n
  {
    Count(LedgerOf(c, events, key).refunds, i, n)
  }

  lemma {:induction false} HitPaysIntoLedger(c: Config, events: seq<Event>, key: Key, i: nat, k: nat)
    requires ValidConfig(c) && InOrder(events) && i <= k < |events|
    ensures Pays(LedgerOf(c, events, key), i, k)
  {
    var d, e := BucketsAt(c, events, k), events[k];
    HistoryKeepsSound(c, events, key, k, e.at);
    HitPays(c, d, e, key);
    AvailableIsBounded(c, d, key, e.at);
    if k > 0 {
      HistoryKeepsSound(c, events, key, k, events[k - 1].at);
      AvailableGrows(c, d, key, events[k - 1].at, e.at);
    }
  }

  lemma {:induction false} WindowPays(c: Config, events: seq<Event>, key: Key, i: nat, n: nat)
    requires ValidConfig(c) && InOrder(events) && i < n <= |events|
    ensures AllowedOf(c, events, key, i, n) as real + LeftAfter(c, events, key, n) <=
            Refunds(c.capacity, EvictionsOf(c, events, key, i, n)) + EarnedAt(c, events, n - 1) - EarnedAt(c, events, i)
  {
    forall k | i <= k < n
      ensures Pays(LedgerOf(c, events, key), i, k)
    {
      HitPaysIntoLedger(c, events, key, i, k);
    }
    LedgerBalances(LedgerOf(c, events, key), i, n);
  }

  lemma {:induction false} LeftIsNoDebt(c: Config, events: seq<Event>, key: Key, n: nat)
    requires ValidConfig(c) && InOrder(events) && 0 < n <= |events|
    ensures LeftAfter(c, events, key, n) >= 0.0
  {
    HistoryKeepsSound(c, events, key, n, events[n - 1].at);
    AvailableIsBounded(c, BucketsAt(c, events, n), key, events[n - 1].at);
  }

  lemma {:induction false} WindowFits(c: Config, events: seq<Event>, key: Key, i: nat, n: nat, allowed: nat,
                                      evicted: nat)
    requires ValidConfig(c) && InOrder(events) && i < n <= |events|
    requires allowed == AllowedOf(c, events, key, i, n) && evicted == EvictionsOf(c, events, key, i, n)
    ensures allowed as real <= Refunds(c.capacity, evicted) + c.earned(events[n - 1].at) - c.earned(events[i].at)
  {
    WindowPays(c, events, key, i, n);
    LeftIsNoDebt(c, events, key, n);
  }

  /** In any window of any history, hits of all keys interleaved, the hits of one key that are allowed
      number at most a capacity, one more for each time its bucket was dropped, and what was earned
      over the window. */
  lemma {:induction false} WindowBound(c: Config, events: seq<Event>, key: Key, i: nat, n: nat)
    requires ValidConfig(c) && InOrder(events) && i < n <= |events|
    ensures AllowedOf(c, events, key, i, n) as real <=
            c.capacity * (1 + EvictionsOf(c, events, key, i, n)) as real +
            c.earned(events[n - 1].at) - c.earned(events[i].at)
  {
    var allowed, evicted := AllowedOf(c, events, key, i, n), EvictionsOf(c, events, key, i, n);
    WindowFits(c, events, key, i, n, allowed, evicted);
    RefundsAreMultiples(c.capacity, evicted);
  }

  lemma {:induction false} EarnedBetween(l: Limiter, t0: Time, t1: Time)
    requires l.RefillsPerWindow()
    ensures l.Settings().earned(t1) - l.Settings().earned(t0) == (t1 - t0) * (l.capacity / l.windowSeconds)
  {
  }

  /** The sum that a window's allowed hits stay within. */
  function WindowLimit(capacity: real, evictions: nat, seconds: real, windowSeconds: real): real
    requires windowSeconds > 0.0
  {
    capacity * (1 + evictions) as real + seconds * (capacity / windowSeconds)
  }

  lemma {:induction false} LimitCovers(capacity: real, evictions: nat, seconds: real, windowSeconds: real, earned: real)
    requires windowSeconds > 0.0 && earned == seconds * (capacity / windowSeconds)
    ensures Refunds(capacity, evictions) + earned == WindowLimit(capacity, evictions, seconds, windowSeconds)
  {
    RefundsAreMultiples(capacity, evictions);
  }

  /** In the limiter's own terms: in any window of any history the hits of one key that are allowed number
      at most the capacity, once and once more for each eviction of the key, and the window's length times
      the capacity per `windowSeconds`. */
  lemma {:induction false} LimiterWindowBound(l: Limiter, events: seq<Event>, key: Key, i: nat, n: nat)
    requires l.Valid() && l.RefillsPerWindow() && InOrder(events) && i < n <= |events|
    ensures AllowedOf(l.Settings(), events, key, i, n) as real <=
            WindowLimit(l.capacity, EvictionsOf(l.Settings(), events, key, i, n),
                        events[n - 1].at - events[i].at, l.windowSeconds)
  {
    var c, t0, t1 := l.Settings(), events[i].at, events[n - 1].at;
    var evicted := EvictionsOf(c, events, key, i, n);
    l.SettingsAreValid();
    WindowFits(c, events, key, i, n, AllowedOf(c, events, key, i, n), evicted);
    EarnedBetween(l, t0, t1);
    LimitCovers(l.capacity, evicted, t1 - t0, l.windowSeconds, c.earned(t1) - c.earned(t0));
  }

  // ---- Which key is dropped ----------------------------------------------

  /** One more than the place of the key's last hit among the first `n`, or 0. */
  function LastHit(events: seq<Event>, key: Key, n: nat): (last: nat)
    requires n <= |events|
    ensures last <= n
  {
    if n == 0 then 0 else if events[n - 1].key == key then n else LastHit(events, key, n - 1)
  }

  /** The entries stand in the order of their keys' last hits. */
  ghost predicate ByLastHit(d: Buckets, events: seq<Event>, n: nat)
    requires n <= |events|
  {
    d == [] ||
    ((forall k | k in KeySet(d[1..]) :: LastHit(events, d[0].0, n) < LastHit(events, k, n)) &&
     ByLastHit(d[1..], events, n))
  }

  lemma {:induction false} WithoutKeepsOrder(d: Buckets, key: Key, events: seq<Event>, n: nat)
    requires n <= |events| && Distinct(d) && ByLastHit(d, events, n)
    ensures ByLastHit(Without(d, key), events, n)
  {
    if d != [] && d[0].0 != key {
      WithoutKeepsOrder(d[1..], key, events, n);
      WithoutDropsKey(d[1..], key);
      assert Without(d, key)[1..] == Without(d[1..], key);
    }
  }

  /** A hit puts its key behind all the others. */
  lemma {:induction false} HitIsLast(d: Buckets, b: Bucket, events: seq<Event>, n: nat)
    requires 0 < n <= |events| && Distinct(d) && events[n - 1].key !in KeySet(d) && ByLastHit(d, events, n - 1)
    ensures ByLastHit(d + [(events[n - 1].key, b)], events, n)
  {
    var key := events[n - 1].key;
    var longer := d + [(key, b)];
    if d == [] {
      assert longer == [(key, b)] && longer[1..] == [];
      assert KeySet(longer[1..]) == {} && ByLastHit(longer[1..], events, n);
    } else {
      HitIsLast(d[1..], b, events, n);
      AppendAddsKey(d[1..], key, b);
      assert longer[1..] == d[1..] + [(key, b)];
    }
  }

  lemma {:induction false} BucketsByLastHit(c: Config, events: seq<Event>, n: nat)
    requires c.maxBuckets > 0 && n <= |events|
    ensures Distinct(BucketsAt(c, events, n)) && |BucketsAt(c, events, n)| <= c.maxBuckets
    ensures ByLastHit(BucketsAt(c, events, n), events, n)
  {
    if n > 0 {
      var d, e := BucketsAt(c, events, n - 1), events[n - 1];
      BucketsByLastHit(c, events, n - 1);
      HitKeepsSound(c, d, e.key, e.at);
      WithoutDropsKey(d, e.key);
      WithoutKeepsOrder(d, e.key, events, n - 1);
      HitIsLast(Without(d, e.key), Drain(c, BucketAt(c, d, e.key, e.at), e.at), events, n);
    }
  }

  /** A hit by a key without a bucket drops one from a full map, the first entry. */
  lemma {:induction false} DroppedIsFirst(c: Config, d: Buckets, key: Key, t: Time, dropped: Key)
    requires c.maxBuckets > 0 && Distinct(d) && |d| <= c.maxBuckets
    requires Lookup(d, dropped).Some? && Lookup(HitBuckets(c, d, key, t), dropped).None?
    ensures key !in KeySet(d) && |d| == c.maxBuckets && d[0].0 == dropped
  {
    HitKeepsSound(c, d, key, t);
    HitOfAnotherKey(c, d, key, t, dropped);
    LookupFindsKeys(d, key);
    WithoutAbsent(d, key);
    var drained := Drain(c, BucketAt(c, d, key, t), t);
    AppendAddsKey(d, key, drained);
    AppendKeepsOthers(d, key, drained, dropped);
    PopKeepsOthers(d + [(key, drained)], dropped);
  }

  /** Only a full map drops a bucket, for a key that has none, and it is the one hit longest ago. */
  lemma {:induction false} DroppedIsLeastRecent(c: Config, events: seq<Event>, dropped: Key, n: nat, other: Key)
    requires c.maxBuckets > 0 && Evicts(c, events, dropped, n)
    requires other != dropped && Lookup(BucketsAt(c, events, n), other).Some?
    ensures LastHit(events, dropped, n) < LastHit(events, other, n)
    ensures Lookup(BucketsAt(c, events, n), events[n].key).None? && |BucketsAt(c, events, n)| == c.maxBuckets
    ensures Lookup(BucketsAt(c, events, n + 1), other).Some?
  {
    var d, e := BucketsAt(c, events, n), events[n];
    BucketsByLastHit(c, events, n);
    DroppedIsFirst(c, d, e.key, e.at, dropped);
    LookupFindsKeys(d, e.key);
    LookupFindsKeys(d, other);
    if Lookup(BucketsAt(c, events, n + 1), other).None? {
      DroppedIsFirst(c, d, e.key, e.at, other);
    }
  }

  // ---- Keys do not share tokens ------------------------------------------

  /** When the key was hit. */
  function TimesOf(events: seq<Event>, key: Key, n: nat): seq<Time>
    requires n <= |events|
  {
    if n == 0 then [] else TimesOf(events, key, n - 1) + if events[n - 1].key == key then [events[n - 1].at] else []
  }

  /** What the map holds for a key that was hit at these moments and never dropped. */
  function OwnBucket(c: Config, times: seq<Time>): Option<Bucket> {
    if times == [] then None
    else Some(Drain(c, BucketBefore(c, times, |times| - 1), times[|times| - 1]))
  }

  lemma {:induction false} BucketAtOwnHit(c: Config, times: seq<Time>, t: Time)
    ensures OwnBucket(c, times + [t]) ==
            Some(Drain(c, if OwnBucket(c, times).Some? then OwnBucket(c, times).value else FullBucket(c, t), t))
    ensures BucketBefore(c, times + [t], |times|) ==
            if OwnBucket(c, times).Some? then OwnBucket(c, times).value else FullBucket(c, t)
  {
    if times != [] {
      BucketOfPrefix(c, times + [t], times, |times| - 1);
    }
  }

  /** While its bucket is never dropped, a key is decided by its own hits alone. */
  lemma {:induction false} UndroppedKeyIsAlone(c: Config, events: seq<Event>, key: Key, n: nat)
    requires c.maxBuckets > 0 && n <= |events| && EvictionsOf(c, events, key, 0, n) == 0
    ensures Distinct(BucketsAt(c, events, n)) && |BucketsAt(c, events, n)| <= c.maxBuckets
    ensures Lookup(BucketsAt(c, events, n), key) == OwnBucket(c, TimesOf(events, key, n))
  {
    if n > 0 {
      var d, e := BucketsAt(c, events, n - 1), events[n - 1];
      var times := TimesOf(events, key, n - 1);
      UndroppedKeyIsAlone(c, events, key, n - 1);
      HitKeepsSound(c, d, e.key, e.at);
      if e.key == key {
        BucketAtOwnHit(c, times, e.at);
      } else {
        assert !Evicts(c, events, key, n - 1);
        HitOfAnotherKey(c, d, e.key, e.at, key);
        assert TimesOf(events, key, n) == times;
      }
    }
  }

  lemma {:induction false} UndroppedHitIsAlone(c: Config, events: seq<Event>, n: nat)
    requires c.maxBuckets > 0 && n < |events| && EvictionsOf(c, events, events[n].key, 0, n) == 0
    ensures var times := TimesOf(events, events[n].key, n + 1);
            |times| > 0 && (EventAllowed(c, events, n) <==> HitAllowed(c, times, |times| - 1))
  {
    var key := events[n].key;
    UndroppedKeyIsAlone(c, events, key, n);
    BucketAtOwnHit(c, TimesOf(events, key, n), events[n].at);
  }
}
