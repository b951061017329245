/**
 Token buckets: the per-key limiter of the API server, which evicts idle buckets, and the sampling
 limiter of an MCP server.  Tokens and seconds are reals.
 */
module RateLimit {
  import opened Common

  // ---------------------------------------------------------------------------------------------
  // One bucket
  // ---------------------------------------------------------------------------------------------

  datatype Bucket = Bucket(capacity: real, tokens: real, rate: real, lastFill: real, lastSeen: real)

  function Capped(tokens: real, capacity: real): real { if tokens > capacity then capacity else tokens }

  function Refill(b: Bucket, now: real): Bucket {
    b.(tokens := Capped(b.tokens + (now - b.lastFill) * b.rate, b.capacity), lastFill := now, lastSeen := now)
  }

  /** Refill, then take one token if there is one. */
  function Take(b: Bucket, now: real): (Bucket, bool) {
    var full := Refill(b, now);
    if full.tokens >= 1.0 then (full.(tokens := full.tokens - 1.0), true) else (full, false)
  }

  predicate BucketOk(b: Bucket) { 0.0 <= b.tokens <= b.capacity && 0.0 < b.rate && b.lastSeen == b.lastFill }

  lemma MulMonotone(a: real, b: real, c: real)
    requires a <= b && 0.0 <= c
    ensures a * c <= b * c
  {
  }

  lemma TakeKeepsRange(b: Bucket, now: real)
    requires BucketOk(b) && b.lastFill <= now
    ensures BucketOk(Take(b, now).0)
  {
    GainIsNotNegative(now - b.lastFill, b.rate);
    TakeKeepsRangeWith(b, now, (now - b.lastFill) * b.rate);
  }

  lemma GainIsNotNegative(elapsed: real, rate: real)
    requires 0.0 <= elapsed && 0.0 <= rate
    ensures 0.0 <= elapsed * rate
  {
  }

  lemma TakeKeepsRangeWith(b: Bucket, now: real, gain: real)
    requires BucketOk(b) && 0.0 <= gain == (now - b.lastFill) * b.rate
    ensures BucketOk(Take(b, now).0)
  {
    var tokens := Capped(b.tokens + gain, b.capacity);
    assert Refill(b, now) == b.(tokens := tokens, lastFill := now, lastSeen := now);
  }

  /** A second request in the same instant finds the bucket as it is. */
  lemma RefillTwice(b: Bucket, now: real)
    requires BucketOk(b) && b.lastFill == now
    ensures Refill(b, now) == b
  {
    assert (now - b.lastFill) * b.rate == 0.0;
  }

  // ---------------------------------------------------------------------------------------------
  // The per-key limiter
  // ---------------------------------------------------------------------------------------------

  datatype Config = Config(rpm: nat, maxIdle: real)

  function Rate(c: Config): real { c.rpm as real / 60.0 }

  function NewBucket(c: Config, now: real): Bucket {
    Bucket(c.rpm as real, c.rpm as real, Rate(c), now, now)
  }

  type Buckets = map<string, Bucket>

  datatype Limiter = Limiter(buckets: Buckets, lastCleanup: Option<real>)

  const FRESH := Limiter(map[], None)

  predicate CleanupDue(c: Config, l: Limiter, now: real) {
    l.lastCleanup.None? || now - l.lastCleanup.value > c.maxIdle
  }

  function Evicted(c: Config, l: Limiter, now: real): Limiter {
    if CleanupDue(c, l, now) then
      Limiter(map k | k in l.buckets && now - l.buckets[k].lastSeen <= c.maxIdle :: l.buckets[k], Some(now))
    else l
  }

  /** A bucket goes exactly when a sweep is due, the first one or more than the idle time after the last, and the
      bucket has not been seen for longer than the idle time; the others stay as they are. */
  lemma BucketIsEvictedIff(c: Config, l: Limiter, now: real, k: string)
    requires k in l.buckets
    ensures var due := l.lastCleanup == None || now - l.lastCleanup.value > c.maxIdle;
            var e := Evicted(c, l, now);
            && (k !in e.buckets <==> due && now - l.buckets[k].lastSeen > c.maxIdle)
            && (k in e.buckets ==> e.buckets[k] == l.buckets[k])
            && e.buckets.Keys <= l.buckets.Keys
            && e.lastCleanup == if due then Some(now) else l.lastCleanup
  {
  }

  /** A request on the bucket of `key`, which is created full when it is missing. */
  function Request(c: Config, bs: Buckets, key: string, now: real): (Buckets, bool) {
    var (b, ok) := Take(if key in bs then bs[key] else NewBucket(c, now), now);
    (bs[key := b], ok)
  }

  function Serve(c: Config, l: Limiter, key: string, now: real): (Limiter, bool) {
    var e := Evicted(c, l, now);
    var (bs, ok) := Request(c, e.buckets, key, now);
    (e.(buckets := bs), ok)
  }

  class RateLimiter {
    const config: Config
    var buckets: map<string, Bucket>
    var lastCleanup: Option<real>

    ghost function State(): Limiter
      reads this
    {
      Limiter(buckets, lastCleanup)
    }

    /** Non-positive settings select 60 requests a minute and ten minutes of idling. */
    constructor (rpm: int, maxIdle: real)
      ensures State() == FRESH
      ensures config == Config(if rpm <= 0 then 60 else rpm, if maxIdle <= 0.0 then 600.0 else maxIdle)
    {
      config := Config(if rpm <= 0 then 60 else rpm, if maxIdle <= 0.0 then 600.0 else maxIdle);
      buckets, lastCleanup := map[], None;
    }

    /** The sweep over the map, in any order. */
    method Cleanup(now: real)
      modifies this
      ensures lastCleanup == Some(now)
      ensures buckets == map k | k in old(buckets) && now - old(buckets)[k].lastSeen <= config.maxIdle
                             :: old(buckets)[k]
    {
      var names := buckets.Keys;
      while names != {}
        invariant names <= buckets.Keys
        invariant buckets == map k | k in old(buckets)
                               && (k in names || now - old(buckets)[k].lastSeen <= config.maxIdle)
                             :: old(buckets)[k]
        decreases |names|
      {
        var k :| k in names;
        names := names - {k};
        if now - buckets[k].lastSeen > config.maxIdle {
          buckets := buckets - {k};
        }
      }
      lastCleanup := Some(now);
    }

    method Allow(key: string, now: real) returns (ok: bool)
      modifies this
      ensures (State(), ok) == Serve(config, old(State()), key, now)
    {
      if lastCleanup.None? || now - lastCleanup.value > config.maxIdle {
        Cleanup(now);
      }
      assert State() == Evicted(config, old(State()), now);
      ghost var kept := buckets;
      if key !in buckets {
        buckets := buckets[key := Bucket(config.rpm as real, config.rpm as real,
                                         config.rpm as real / 60.0, now, now)];
      }
      var bucket := buckets[key];
      ghost var b0 := bucket;
      assert b0 == if key in kept then kept[key] else NewBucket(config, now);
      var elapsed := now - bucket.lastFill;
      bucket := bucket.(tokens := bucket.tokens + elapsed * bucket.rate);
      if bucket.tokens > bucket.capacity {
        bucket := bucket.(tokens := bucket.capacity);
      }
      bucket := bucket.(lastFill := now, lastSeen := now);
      assert bucket == Refill(b0, now);
      ok := bucket.tokens >= 1.0;
      if ok {
        bucket := bucket.(tokens := bucket.tokens - 1.0);
      }
      buckets := buckets[key := bucket];
      assert buckets == kept[key := bucket];
    }
  }

  /** The limiter of one MCP server: ten requests a minute. */
  class SamplingRateLimiter {
    var tokens: real
    const maxTok: real
    var lastTick: real

    ghost function State(): Bucket
      reads this
    {
      Bucket(maxTok, tokens, 10.0 / 60.0, lastTick, lastTick)
    }

    constructor (now: real)
      ensures State() == NewBucket(Config(10, 0.0), now)
    {
      tokens, maxTok, lastTick := 10.0, 10.0, now;
    }

    method Allow(now: real) returns (ok: bool)
      modifies this
      ensures (State(), ok) == Take(old(State()), now)
    {
      var elapsed := now - lastTick;
      lastTick := now;
      tokens := tokens + elapsed * (10.0 / 60.0);
      if tokens > maxTok {
        tokens := maxTok;
      }
      if tokens < 1.0 {
        return false;
      }
      tokens := tokens - 1.0;
      return true;
    }
  }

  // ---------------------------------------------------------------------------------------------
  // Runs
  // ---------------------------------------------------------------------------------------------

  datatype Call = Call(key: string, now: real)

  /** The clock never goes back. */
  ghost predicate Ordered(run: seq<Call>) {
    forall i, j :: 0 <= i <= j < |run| ==> run[i].now <= run[j].now
  }

  /** The answers of the limiter that evicts. */
  function Answers(c: Config, l: Limiter, run: seq<Call>): (r: seq<bool>)
    ensures |r| == |run|
    decreases |run|
  {
    if run == [] then []
    else
      var (l1, ok) := Serve(c, l, run[0].key, run[0].now);
      [ok] + Answers(c, l1, run[1..])
  }

  /** The answers of a limiter that keeps every bucket for ever. */
  function KeepingAnswers(c: Config, bs: Buckets, run: seq<Call>): (r: seq<bool>)
    ensures |r| == |run|
    decreases |run|
  {
    if run == [] then []
    else
      var (bs1, ok) := Request(c, bs, run[0].key, run[0].now);
      [ok] + KeepingAnswers(c, bs1, run[1..])
  }

  function KeptAfter(c: Config, bs: Buckets, run: seq<Call>): Buckets
    decreases |run|
  {
    if run == [] then bs else KeptAfter(c, Request(c, bs, run[0].key, run[0].now).0, run[1..])
  }

  function LimiterAfter(c: Config, l: Limiter, run: seq<Call>): Limiter
    decreases |run|
  {
    if run == [] then l else LimiterAfter(c, Serve(c, l, run[0].key, run[0].now).0, run[1..])
  }

  lemma {:induction false} AnswersConcat(c: Config, l: Limiter, a: seq<Call>, b: seq<Call>)
    ensures Answers(c, l, a + b) == Answers(c, l, a) + Answers(c, LimiterAfter(c, l, a), b)
    decreases |a|
  {
    if a == [] {
      assert a + b == b;
    } else {
      assert (a + b)[1..] == a[1..] + b;
      AnswersConcat(c, Serve(c, l, a[0].key, a[0].now).0, a[1..], b);
    }
  }

  lemma {:induction false} KeepingConcat(c: Config, bs: Buckets, a: seq<Call>, b: seq<Call>)
    ensures KeepingAnswers(c, bs, a + b) ==
            KeepingAnswers(c, bs, a) + KeepingAnswers(c, KeptAfter(c, bs, a), b)
    decreases |a|
  {
    if a == [] {
      assert a + b == b;
    } else {
      assert (a + b)[1..] == a[1..] + b;
      KeepingConcat(c, Request(c, bs, a[0].key, a[0].now).0, a[1..], b);
    }
  }

  // ---------------------------------------------------------------------------------------------
  // Eviction is invisible when buckets idle for a full refill
  // ---------------------------------------------------------------------------------------------

  /** A bucket of this configuration, filled no later than `now`. */
  predicate Proper(c: Config, b: Bucket, now: real) {
    BucketOk(b) && b.capacity == c.rpm as real && b.rate == Rate(c) && b.lastFill <= now
  }

  ghost predicate AllProper(c: Config, bs: Buckets, now: real) {
    forall k :: k in bs ==> Proper(c, bs[k], now)
  }

  /** By `now` the bucket has filled up. */
  predicate FullBy(b: Bucket, now: real) { b.tokens + (now - b.lastFill) * b.rate >= b.capacity }

  /** `ev` is what eviction left of `kept`. */
  ghost predicate Shadows(c: Config, ev: Buckets, kept: Buckets, now: real) {
    && AllProper(c, kept, now)
    && (forall k :: k in ev ==> k in kept && ev[k] == kept[k])
    && (forall k :: k in kept && k !in ev ==> FullBy(kept[k], now))
  }

  lemma FullLater(b: Bucket, t: real, now: real)
    requires BucketOk(b) && t <= now && FullBy(b, t)
    ensures FullBy(b, now)
  {
    MulMonotone(t - b.lastFill, now - b.lastFill, b.rate);
  }

  lemma IdleMinuteFills(c: Config, b: Bucket, t: real, now: real)
    requires Proper(c, b, t) && now - b.lastFill >= 60.0
    ensures FullBy(b, now)
  {
    MulMonotone(60.0, now - b.lastFill, b.rate);
  }

  lemma EvictionKeepsShadow(c: Config, l: Limiter, kept: Buckets, t: real, now: real)
    requires c.maxIdle >= 60.0 && t <= now && Shadows(c, l.buckets, kept, t)
    ensures Shadows(c, Evicted(c, l, now).buckets, kept, now)
  {
    forall k | k in kept && k !in Evicted(c, l, now).buckets
      ensures FullBy(kept[k], now)
    {
      if k in l.buckets {
        IdleMinuteFills(c, kept[k], t, now);
      } else {
        FullLater(kept[k], t, now);
      }
    }
  }

  lemma RequestAgrees(c: Config, ev: Buckets, kept: Buckets, key: string, now: real)
    requires c.rpm > 0 && Shadows(c, ev, kept, now)
    ensures Request(c, ev, key, now).1 == Request(c, kept, key, now).1
    ensures Shadows(c, Request(c, ev, key, now).0, Request(c, kept, key, now).0, now)
  {
    var brandNew := NewBucket(c, now);
    RefillTwice(brandNew, now);
    TakeKeepsRange(if key in kept then kept[key] else brandNew, now);
  }

  lemma {:induction false} EvictionIsInvisible(c: Config, l: Limiter, kept: Buckets, t: real, run: seq<Call>)
    requires c.rpm > 0 && c.maxIdle >= 60.0 && Ordered(run)
    requires Shadows(c, l.buckets, kept, t) && (run != [] ==> t <= run[0].now)
    ensures Answers(c, l, run) == KeepingAnswers(c, kept, run)
    decreases |run|
  {
    if run != [] {
      var now := run[0].now;
      EvictionKeepsShadow(c, l, kept, t, now);
      RequestAgrees(c, Evicted(c, l, now).buckets, kept, run[0].key, now);
      EvictionIsInvisible(c, Serve(c, l, run[0].key, now).0, Request(c, kept, run[0].key, now).0, now, run[1..]);
    }
  }

  // With a shorter idle time a drained bucket comes back full too early.

  function Burst(key: string, now: real, n: nat): seq<Call> { seq(n, _ => Call(key, now)) }

  ghost predicate AllTrue(answers: seq<bool>) { forall i :: 0 <= i < |answers| ==> answers[i] }

  /** A bucket with enough tokens serves a burst in one instant. */
  lemma {:induction false} BurstIsServed(c: Config, l: Limiter, key: string, now: real, n: nat)
    requires c.maxIdle > 0.0 && l.lastCleanup == Some(now) && key in l.buckets
    requires var b := l.buckets[key]; Proper(c, b, now) && b.lastFill == now && b.tokens >= n as real
    ensures AllTrue(Answers(c, l, Burst(key, now, n)))
    ensures var b := l.buckets[key];
            LimiterAfter(c, l, Burst(key, now, n))
            == l.(buckets := l.buckets[key := b.(tokens := b.tokens - n as real)])
    decreases n
  {
    var b := l.buckets[key];
    RefillTwice(b, now);
    if n > 0 {
      assert Burst(key, now, n)[1..] == Burst(key, now, n - 1);
      BurstIsServed(c, Serve(c, l, key, now).0, key, now, n - 1);
    } else {
      assert l.buckets == l.buckets[key := b.(tokens := b.tokens - 0.0)];
    }
  }

  /** When the bucket is missing or about to be evicted, a burst up to the capacity is served. */
  lemma EvictedBurstIsServed(c: Config, l: Limiter, key: string, now: real)
    requires c.rpm > 0 && c.maxIdle > 0.0 && CleanupDue(c, l, now)
    requires key in l.buckets ==> now - l.buckets[key].lastSeen > c.maxIdle
    ensures AllTrue(Answers(c, l, Burst(key, now, c.rpm)))
    ensures var l' := LimiterAfter(c, l, Burst(key, now, c.rpm));
            l'.lastCleanup == Some(now) && key in l'.buckets && l'.buckets[key].lastSeen == now
  {
    var e := Evicted(c, l, now);
    var l1 := e.(buckets := e.buckets[key := NewBucket(c, now)]);
    assert Serve(c, l, key, now) == Serve(c, l1, key, now) by {
      assert e.buckets[key := Take(NewBucket(c, now), now).0] == l1.buckets[key := Take(NewBucket(c, now), now).0];
    }
    BurstIsServed(c, l1, key, now, c.rpm);
  }

  /** A burst that is served in full has spent that many tokens. */
  lemma {:induction false} ServedBurstSpends(c: Config, bs: Buckets, key: string, now: real, n: nat)
    requires key in bs && Proper(c, bs[key], now) && bs[key].lastFill == now
    requires AllTrue(KeepingAnswers(c, bs, Burst(key, now, n)))
    ensures bs[key].tokens >= n as real
    ensures KeptAfter(c, bs, Burst(key, now, n)) == bs[key := bs[key].(tokens := bs[key].tokens - n as real)]
    decreases n
  {
    RefillTwice(bs[key], now);
    if n > 0 {
      var bs1 := Request(c, bs, key, now).0;
      assert Burst(key, now, n)[1..] == Burst(key, now, n - 1);
      var answers := KeepingAnswers(c, bs, Burst(key, now, n));
      assert answers[0] && answers[1..] == KeepingAnswers(c, bs1, Burst(key, now, n - 1));
      ServedBurstSpends(c, bs1, key, now, n - 1);
    } else {
      assert bs == bs[key := bs[key].(tokens := bs[key].tokens - 0.0)];
    }
  }

  /** A later burst starts from the refilled bucket. */
  lemma BurstStartsRefilled(c: Config, bs: Buckets, key: string, now: real, n: nat)
    requires 0 < n && (key in bs ==> Proper(c, bs[key], now)) && 0 < c.rpm
    ensures var b := if key in bs then Refill(bs[key], now) else NewBucket(c, now);
            && KeepingAnswers(c, bs, Burst(key, now, n)) == KeepingAnswers(c, bs[key := b], Burst(key, now, n))
            && KeptAfter(c, bs, Burst(key, now, n)) == KeptAfter(c, bs[key := b], Burst(key, now, n))
            && Proper(c, b, now)
  {
    var b := if key in bs then Refill(bs[key], now) else NewBucket(c, now);
    TakeKeepsRange(if key in bs then bs[key] else b, now);
    RefillTwice(b, now);
    assert Request(c, bs, key, now) == Request(c, bs[key := b], key, now) by {
      assert bs[key := Take(b, now).0] == bs[key := b][key := Take(b, now).0];
    }
  }

  /** Two bursts less than a minute apart: a limiter that keeps its buckets refuses some of them. */
  lemma KeptBurstsAreRefused(c: Config, key: string, d: real)
    requires 0 < c.rpm && 0.0 < d < 60.0
    ensures !AllTrue(KeepingAnswers(c, map[], Burst(key, 0.0, c.rpm) + Burst(key, d, c.rpm)))
  {
    var a, b := Burst(key, 0.0, c.rpm), Burst(key, d, c.rpm);
    var all := KeepingAnswers(c, map[], a + b);
    var mid := KeptAfter(c, map[], a);
    KeepingConcat(c, map[], a, b);
    if AllTrue(all) {
      assert all[..c.rpm] == KeepingAnswers(c, map[], a) && all[c.rpm..] == KeepingAnswers(c, mid, b);
      FirstBurstEmpties(c, key);
      SecondBurstIsRefused(c, mid, key, d);
    }
  }

  lemma FirstBurstEmpties(c: Config, key: string)
    requires 0 < c.rpm && AllTrue(KeepingAnswers(c, map[], Burst(key, 0.0, c.rpm)))
    ensures var mid := KeptAfter(c, map[], Burst(key, 0.0, c.rpm));
            key in mid && mid[key] == NewBucket(c, 0.0).(tokens := 0.0)
  {
    BurstStartsRefilled(c, map[], key, 0.0, c.rpm);
    ServedBurstSpends(c, map[key := NewBucket(c, 0.0)], key, 0.0, c.rpm);
  }

  lemma SecondBurstIsRefused(c: Config, mid: Buckets, key: string, d: real)
    requires 0 < c.rpm && 0.0 < d < 60.0
    requires key in mid && mid[key] == NewBucket(c, 0.0).(tokens := 0.0)
    ensures !AllTrue(KeepingAnswers(c, mid, Burst(key, d, c.rpm)))
  {
    EmptyBucketFillsInAMinute(c, d);
    BurstStartsRefilled(c, mid, key, d, c.rpm);
    if AllTrue(KeepingAnswers(c, mid, Burst(key, d, c.rpm))) {
      ServedBurstSpends(c, mid[key := Refill(mid[key], d)], key, d, c.rpm);
    }
  }

  lemma EmptyBucketFillsInAMinute(c: Config, d: real)
    requires 0 < c.rpm && 0.0 < d < 60.0
    ensures Refill(NewBucket(c, 0.0).(tokens := 0.0), d).tokens < c.rpm as real
  {
    assert d * Rate(c) < c.rpm as real;
  }

  lemma EvictedBurstsAreServed(c: Config, key: string, d: real)
    requires 0 < c.rpm && 0.0 < c.maxIdle < d
    ensures AllTrue(Answers(c, FRESH, Burst(key, 0.0, c.rpm) + Burst(key, d, c.rpm)))
  {
    var a, b := Burst(key, 0.0, c.rpm), Burst(key, d, c.rpm);
    AnswersConcat(c, FRESH, a, b);
    EvictedBurstIsServed(c, FRESH, key, 0.0);
    EvictedBurstIsServed(c, LimiterAfter(c, FRESH, a), key, d);
  }

  /** Dropping idle buckets changes no answer of any run exactly when they idle for a minute, the
      time an empty bucket takes to fill, before they are dropped. */
  lemma EvictionIsInvisibleIff(c: Config)
    requires 0 < c.rpm && 0.0 < c.maxIdle
    ensures (forall run :: Ordered(run) ==> Answers(c, FRESH, run) == KeepingAnswers(c, map[], run))
            <==> c.maxIdle >= 60.0
  {
    if c.maxIdle >= 60.0 {
      forall run: seq<Call> | Ordered(run)
        ensures Answers(c, FRESH, run) == KeepingAnswers(c, map[], run)
      {
        EvictionIsInvisible(c, FRESH, map[], if run == [] then 0.0 else run[0].now, run);
      }
    } else {
      var d := (c.maxIdle + 60.0) / 2.0;
      var run := Burst("k", 0.0, c.rpm) + Burst("k", d, c.rpm);
      KeptBurstsAreRefused(c, "k", d);
      EvictedBurstsAreServed(c, "k", d);
      assert Ordered(run);
    }
  }

  // ---------------------------------------------------------------------------------------------
  // The rate over any window
  // ---------------------------------------------------------------------------------------------

  /** The requests of one key that were let through. */
  function Allowed(run: seq<Call>, answers: seq<bool>, key: string): nat
    requires |run| == |answers|
  {
    if run == [] then 0
    else (if run[0].key == key && answers[0] then 1 else 0) + Allowed(run[1..], answers[1..], key)
  }

  /** What accrues over a span of time. */
  function Accrued(c: Config, span: real): real { span * Rate(c) }

  /** What `key` could spend at `now`. */
  function Available(c: Config, bs: Buckets, key: string, now: real): real {
    if key in bs then Refill(bs[key], now).tokens else c.rpm as real
  }

  lemma AvailableGrows(c: Config, bs: Buckets, key: string, t: real, now: real)
    requires AllProper(c, bs, t) && t <= now && 0 < c.rpm
    ensures Available(c, bs, key, now) <= Available(c, bs, key, t) + Accrued(c, now - t)
  {
    AccruedIsNotNegative(c, now - t);
    if key in bs {
      var b := bs[key];
      ProductSplits(b.lastFill, t, now, b.rate);
      CappedGrows(b.tokens + (t - b.lastFill) * b.rate, Accrued(c, now - t), b.capacity);
    }
  }

  lemma AccruedIsNotNegative(c: Config, span: real)
    requires 0.0 <= span && 0 < c.rpm
    ensures 0.0 <= Accrued(c, span)
  {
    MulMonotone(0.0, span, Rate(c));
  }

  lemma ProductSplits(a: real, b: real, c: real, rate: real)
    ensures (c - a) * rate == (b - a) * rate + (c - b) * rate
  {
  }

  lemma CappedGrows(tokens: real, more: real, capacity: real)
    requires 0.0 <= more
    ensures Capped(tokens + more, capacity) <= Capped(tokens, capacity) + more
  {
  }

  lemma RequestSpends(c: Config, bs: Buckets, key: string, now: real, other: string)
    requires AllProper(c, bs, now) && 0 < c.rpm
    ensures var (bs', ok) := Request(c, bs, key, now);
            && AllProper(c, bs', now)
            && Available(c, bs', other, now)
               == Available(c, bs, other, now) - (if other == key && ok then 1.0 else 0.0)
  {
    var b := if key in bs then bs[key] else NewBucket(c, now);
    TakeKeepsRange(b, now);
    RefillTwice(Take(b, now).0, now);
    RefillTwice(NewBucket(c, now), now);
  }

  lemma AccruedAdds(c: Config, t: real, now: real, end: real)
    ensures Accrued(c, end - t) == Accrued(c, now - t) + Accrued(c, end - now)
  {
  }

  lemma AllowedStep(c: Config, bs: Buckets, run: seq<Call>, key: string)
    requires run != []
    ensures var (bs1, ok) := Request(c, bs, run[0].key, run[0].now);
            Allowed(run, KeepingAnswers(c, bs, run), key)
            == (if run[0].key == key && ok then 1 else 0) + Allowed(run[1..], KeepingAnswers(c, bs1, run[1..]), key)
  {
    var bs1 := Request(c, bs, run[0].key, run[0].now).0;
    assert KeepingAnswers(c, bs, run)[1..] == KeepingAnswers(c, bs1, run[1..]);
  }

  lemma ProperLater(c: Config, bs: Buckets, t: real, now: real)
    requires AllProper(c, bs, t) && t <= now
    ensures AllProper(c, bs, now)
  {
  }

  lemma {:induction false} SpendingIsBounded(c: Config, bs: Buckets, run: seq<Call>, key: string, t: real)
    requires 0 < c.rpm && Ordered(run) && AllProper(c, bs, t) && run != [] && t <= run[0].now
    ensures Allowed(run, KeepingAnswers(c, bs, run), key) as real
            <= Available(c, bs, key, t) + Accrued(c, run[|run| - 1].now - t)
    decreases |run|
  {
    var now, end := run[0].now, run[|run| - 1].now;
    var bs1 := Request(c, bs, run[0].key, now).0;
    ProperLater(c, bs, t, now);
    var more := Allowed(run[1..], KeepingAnswers(c, bs1, run[1..]), key);
    AllowedStep(c, bs, run, key);
    RequestSpends(c, bs, run[0].key, now, key);
    assert more as real <= Available(c, bs1, key, now) + Accrued(c, end - now) by {
      if |run| > 1 {
        SpendingIsBounded(c, bs1, run[1..], key, now);
      } else {
        AvailableIsNotNegative(c, bs1, key, now);
        assert run[1..] == [] && Accrued(c, 0.0) == 0.0;
      }
    }
    AvailableGrows(c, bs, key, t, now);
    AccruedAdds(c, t, now, end);
  }

  lemma AvailableIsNotNegative(c: Config, bs: Buckets, key: string, now: real)
    requires AllProper(c, bs, now) && 0 < c.rpm
    ensures 0.0 <= Available(c, bs, key, now) <= c.rpm as real
  {
    if key in bs {
      TakeKeepsRange(bs[key], now);
    }
  }

  lemma {:induction false} KeptStaysProper(c: Config, bs: Buckets, run: seq<Call>, t: real)
    requires 0 < c.rpm && Ordered(run) && AllProper(c, bs, t) && (run != [] ==> t <= run[0].now)
    ensures AllProper(c, KeptAfter(c, bs, run), if run == [] then t else run[|run| - 1].now)
    decreases |run|
  {
    if run != [] {
      assert AllProper(c, bs, run[0].now);
      RequestSpends(c, bs, run[0].key, run[0].now, run[0].key);
      KeptStaysProper(c, Request(c, bs, run[0].key, run[0].now).0, run[1..], run[0].now);
    }
  }

  /** The answers in a window are those of a keeping limiter with proper buckets. */
  lemma WindowOfAnswers(c: Config, run: seq<Call>, i: nat, j: nat) returns (bs: Buckets)
    requires 0 < c.rpm && c.maxIdle >= 60.0 && Ordered(run) && i < j <= |run|
    ensures Answers(c, FRESH, run)[i..j] == KeepingAnswers(c, bs, run[i..j])
    ensures AllProper(c, bs, run[i].now)
  {
    EvictionIsInvisible(c, FRESH, map[], run[0].now, run);
    bs := KeptAfter(c, map[], run[..i]);
    KeepingInParts(c, run, i, j);
    PropernessAt(c, run, i);
  }

  lemma KeepingFrom(c: Config, bs: Buckets, run: seq<Call>, i: nat)
    requires i <= |run|
    ensures KeepingAnswers(c, bs, run)[i..] == KeepingAnswers(c, KeptAfter(c, bs, run[..i]), run[i..])
  {
    assert run == run[..i] + run[i..];
    KeepingConcat(c, bs, run[..i], run[i..]);
  }

  lemma KeepingUpTo(c: Config, bs: Buckets, run: seq<Call>, n: nat)
    requires n <= |run|
    ensures KeepingAnswers(c, bs, run)[..n] == KeepingAnswers(c, bs, run[..n])
  {
    assert run == run[..n] + run[n..];
    KeepingConcat(c, bs, run[..n], run[n..]);
  }

  lemma KeepingInParts(c: Config, run: seq<Call>, i: nat, j: nat)
    requires i < j <= |run|
    ensures KeepingAnswers(c, map[], run)[i..j] == KeepingAnswers(c, KeptAfter(c, map[], run[..i]), run[i..j])
  {
    var all := KeepingAnswers(c, map[], run);
    KeepingFrom(c, map[], run, i);
    KeepingUpTo(c, KeptAfter(c, map[], run[..i]), run[i..], j - i);
    assert all[i..][..j - i] == all[i..j] && run[i..][..j - i] == run[i..j];
  }

  lemma PropernessAt(c: Config, run: seq<Call>, i: nat)
    requires 0 < c.rpm && Ordered(run) && i < |run|
    ensures AllProper(c, KeptAfter(c, map[], run[..i]), run[i].now)
  {
    assert Ordered(run[..i]);
    KeptStaysProper(c, map[], run[..i], run[0].now);
    ProperLater(c, KeptAfter(c, map[], run[..i]), if i == 0 then run[0].now else run[i - 1].now, run[i].now);
  }

  /** In every run of the limiter as configured and any window of it, one key gets at most the
      capacity plus what accrues over the window. */
  lemma WindowIsBounded(c: Config, run: seq<Call>, i: nat, j: nat, key: string)
    requires 0 < c.rpm && c.maxIdle >= 60.0 && Ordered(run) && i < j <= |run|
    ensures Allowed(run[i..j], Answers(c, FRESH, run)[i..j], key) as real
            <= c.rpm as real + Accrued(c, run[j - 1].now - run[i].now)
  {
    var bs := WindowOfAnswers(c, run, i, j);
    var window := run[i..j];
    assert window[0] == run[i] && window[|window| - 1] == run[j - 1] && Ordered(window);
    WindowSpends(c, bs, window, key);
  }

  lemma WindowSpends(c: Config, bs: Buckets, window: seq<Call>, key: string)
    requires 0 < c.rpm && Ordered(window) && window != [] && AllProper(c, bs, window[0].now)
    ensures Allowed(window, KeepingAnswers(c, bs, window), key) as real
            <= c.rpm as real + Accrued(c, window[|window| - 1].now - window[0].now)
  {
    SpendingIsBounded(c, bs, window, key, window[0].now);
    AvailableIsNotNegative(c, bs, key, window[0].now);
  }

  lemma {:induction false} AllAllowed(run: seq<Call>, answers: seq<bool>, key: string)
    requires |run| == |answers| && AllTrue(answers) && forall i :: 0 <= i < |run| ==> run[i].key == key
    ensures Allowed(run, answers, key) == |run|
    decreases |run|
  {
    if run != [] {
      AllAllowed(run[1..], answers[1..], key);
    }
  }

  /** No window of this run lets more through than the capacity and what accrues. */
  ghost predicate IsBounded(c: Config, run: seq<Call>) {
    forall i, j, key :: 0 <= i < j <= |run| ==>
      Allowed(run[i..j], Answers(c, FRESH, run)[i..j], key) as real
      <= c.rpm as real + Accrued(c, run[j - 1].now - run[i].now)
  }

  lemma TwoBurstsBreakTheBound(c: Config, d: real)
    requires 0 < c.rpm && 0.0 < c.maxIdle < d < 60.0
    ensures !IsBounded(c, Burst("k", 0.0, c.rpm) + Burst("k", d, c.rpm))
  {
    var run := Burst("k", 0.0, c.rpm) + Burst("k", d, c.rpm);
    var n := |run|;
    var answers := Answers(c, FRESH, run);
    EvictedBurstsAreServed(c, "k", d);
    AllAllowed(run, answers, "k");
    assert run[0..n] == run && answers[0..n] == answers;
    EmptyBucketFillsInAMinute(c, d);
    assert Allowed(run[0..n], answers[0..n], "k") as real
         > c.rpm as real + Accrued(c, run[n - 1].now - run[0].now);
  }

  /** The promised rate holds in every run and window exactly when buckets idle for a minute before
      they are dropped. */
  lemma RateHoldsIff(c: Config)
    requires 0 < c.rpm && 0.0 < c.maxIdle
    ensures (forall run :: Ordered(run) ==> IsBounded(c, run)) <==> c.maxIdle >= 60.0
  {
    if c.maxIdle >= 60.0 {
      forall run: seq<Call>, i, j, key | Ordered(run) && 0 <= i < j <= |run|
        ensures Allowed(run[i..j], Answers(c, FRESH, run)[i..j], key) as real
                <= c.rpm as real + Accrued(c, run[j - 1].now - run[i].now)
      {
        WindowIsBounded(c, run, i, j, key);
      }
    } else {
      var d := (c.maxIdle + 60.0) / 2.0;
      var run := Burst("k", 0.0, c.rpm) + Burst("k", d, c.rpm);
      TwoBurstsBreakTheBound(c, d);
      assert Ordered(run);
    }
  }

  // ---------------------------------------------------------------------------------------------
  // The sampling limiter
  // ---------------------------------------------------------------------------------------------

  function SamplingAnswers(b: Bucket, times: seq<real>): (r: seq<bool>)
    ensures |r| == |times|
    decreases |times|
  {
    if times == [] then []
    else
      var (b1, ok) := Take(b, times[0]);
      [ok] + SamplingAnswers(b1, times[1..])
  }

  function CallsAt(times: seq<real>): (run: seq<Call>)
    ensures |run| == |times| && forall i :: 0 <= i < |run| ==> run[i] == Call("", times[i])
  {
    seq(|times|, i requires 0 <= i < |times| => Call("", times[i]))
  }

  function Count(answers: seq<bool>): nat {
    if answers == [] then 0 else (if answers[0] then 1 else 0) + Count(answers[1..])
  }

  /** The sampling limiter is a single bucket that is kept for ever. */
  lemma {:induction false} SamplingIsOneKey(c: Config, b: Bucket, times: seq<real>)
    ensures SamplingAnswers(b, times) == KeepingAnswers(c, map["" := b], CallsAt(times))
    ensures Count(SamplingAnswers(b, times)) == Allowed(CallsAt(times), SamplingAnswers(b, times), "")
    decreases |times|
  {
    if times != [] {
      var b1 := Take(b, times[0]).0;
      assert CallsAt(times)[1..] == CallsAt(times[1..]);
      assert map["" := b]["" := b1] == map["" := b1];
      SamplingIsOneKey(c, b1, times[1..]);
    }
  }

  /** From any state it can be in, over any stretch of time the sampling limiter allows at most ten
      requests plus one for every six seconds. */
  lemma SamplingIsBounded(b: Bucket, times: seq<real>)
    requires Proper(Config(10, 0.0), b, b.lastFill) && times != [] && b.lastFill <= times[0]
    requires forall i, j :: 0 <= i <= j < |times| ==> times[i] <= times[j]
    ensures Count(SamplingAnswers(b, times)) as real <= 10.0 + (times[|times| - 1] - times[0]) / 6.0
  {
    SamplingSpends(Config(10, 0.0), b, times);
    SamplingRate(Config(10, 0.0), times[|times| - 1] - times[0]);
  }

  lemma CallsFollowTimes(times: seq<real>)
    requires times != [] && forall i, j :: 0 <= i <= j < |times| ==> times[i] <= times[j]
    ensures Ordered(CallsAt(times)) && CallsAt(times) != []
    ensures CallsAt(times)[0].now == times[0] && CallsAt(times)[|CallsAt(times)| - 1].now == times[|times| - 1]
  {
  }

  lemma OneIsProper(c: Config, b: Bucket, now: real)
    requires 0 < c.rpm && Proper(c, b, b.lastFill) && b.lastFill <= now
    ensures AllProper(c, map["" := b], now)
  {
    ProperLater(c, map["" := b], b.lastFill, now);
  }

  lemma SamplingWindow(c: Config, b: Bucket, calls: seq<Call>)
    requires 0 < c.rpm && Proper(c, b, b.lastFill) && Ordered(calls) && calls != [] && b.lastFill <= calls[0].now
    ensures Allowed(calls, KeepingAnswers(c, map["" := b], calls), "") as real
            <= c.rpm as real + Accrued(c, calls[|calls| - 1].now - calls[0].now)
  {
    OneIsProper(c, b, calls[0].now);
    WindowSpends(c, map["" := b], calls, "");
  }

  lemma SamplingSpends(c: Config, b: Bucket, times: seq<real>)
    requires 0 < c.rpm && Proper(c, b, b.lastFill) && times != [] && b.lastFill <= times[0]
    requires forall i, j :: 0 <= i <= j < |times| ==> times[i] <= times[j]
    ensures Count(SamplingAnswers(b, times)) as real
            <= c.rpm as real + Accrued(c, times[|times| - 1] - times[0])
  {
    SamplingIsOneKey(c, b, times);
    CallsFollowTimes(times);
    SamplingWindow(c, b, CallsAt(times));
  }

  lemma SamplingRate(c: Config, span: real)
    requires c.rpm == 10
    ensures Accrued(c, span) == span / 6.0
  {
  }
}
