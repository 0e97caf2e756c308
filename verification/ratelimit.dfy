/** Token-bucket rate limiting: pkg/auth/ratelimit.go.

    Token counts and instants (in seconds) are exact reals.  Each operation reads the clock once
    and the clock never runs backwards.  A call is one step here; calls that a sweep or a reset
    overtakes between their lookup and their charge are in the module OverlappingCalls. */
module TokenBuckets {
  import opened Common

  /** Both numbers are taken as configured; the limiter checks neither. */
  datatype Config = Config(requestsPerMinute: int, burstSize: int)

  datatype Bucket = Bucket(tokens: real, lastRefill: real)

  type Buckets = map<string, Bucket>

  const IdleLimit := 600.0

  function Min(a: real, b: real): real { if a < b then a else b }

  function Max(a: real, b: real): real { if a > b then a else b }

  function Rate(c: Config): real { c.requestsPerMinute as real / 60.0 }

  function Burst(c: Config): real { c.burstSize as real }

  /** Tokens earned by waiting. */
  function Gain(rate: real, elapsed: real): real { elapsed * rate }

  function Refilled(c: Config, b: Bucket, now: real): real {
    Min(b.tokens + Gain(Rate(c), now - b.lastRefill), Burst(c))
  }

  function Consumed(c: Config, b: Bucket, now: real): (Bucket, bool) {
    var tokens := Refilled(c, b, now);
    if tokens >= 1.0 then (Bucket(tokens - 1.0, now), true) else (Bucket(tokens, now), false)
  }

  function BucketFor(c: Config, bs: Buckets, key: string, now: real): Bucket {
    if key in bs then bs[key] else Bucket(Burst(c), now)
  }

  function Lookup(bs: Buckets, key: string): Option<Bucket> {
    if key in bs then Some(bs[key]) else None
  }

  function Decision(c: Config, bs: Buckets, key: string, now: real): bool {
    Consumed(c, BucketFor(c, bs, key, now), now).1
  }

  function AfterAllow(c: Config, bs: Buckets, key: string, now: real): Buckets {
    bs[key := Consumed(c, BucketFor(c, bs, key, now), now).0]
  }

  function AfterCleanup(bs: Buckets, now: real): Buckets {
    map k | k in bs && now - bs[k].lastRefill <= IdleLimit :: bs[k]
  }

  // ---------------------------------------------------------------------------------------
  // Runs
  // ---------------------------------------------------------------------------------------

  datatype Event = Call(key: string, at: real) | Sweep(at: real)

  function Step(c: Config, bs: Buckets, e: Event): Buckets {
    match e
    case Call(key, at) => AfterAllow(c, bs, key, at)
    case Sweep(at) => AfterCleanup(bs, at)
  }

  function Run(c: Config, bs: Buckets, events: seq<Event>): Buckets
    decreases |events|
  {
    if events == [] then bs else Run(c, Step(c, bs, events[0]), events[1..])
  }

  /** How many calls for one key are let through while the events happen. */
  function AdmittedCount(c: Config, bs: Buckets, events: seq<Event>, key: string): nat
    decreases |events|
  {
    if events == [] then 0
    else (if Admits(c, bs, events[0], key) then 1 else 0)
         + AdmittedCount(c, Step(c, bs, events[0]), events[1..], key)
  }

  predicate Admits(c: Config, bs: Buckets, e: Event, key: string) {
    e.Call? && e.key == key && Decision(c, bs, key, e.at)
  }

  /** The clock never runs backwards, from the given start on. */
  predicate Chronological(start: real, events: seq<Event>)
    decreases |events|
  {
    events == [] || (start <= events[0].at && Chronological(events[0].at, events[1..]))
  }

  function EndOf(start: real, events: seq<Event>): real
    decreases |events|
  {
    if events == [] then start else EndOf(events[0].at, events[1..])
  }

  function WithoutSweeps(events: seq<Event>): seq<Event> {
    if events == [] then []
    else if events[0].Sweep? then WithoutSweeps(events[1..])
    else [events[0]] + WithoutSweeps(events[1..])
  }

  /** The configurations under which a bucket idle for over ten minutes is certainly full
      again, or under which no call is ever admitted. */
  predicate EvictionSafe(c: Config) {
    c.burstSize <= 10 * c.requestsPerMinute || c.burstSize <= 0
  }

  lemma GainSplits(rate: real, a: real, b: real)
    ensures Gain(rate, a + b) == Gain(rate, a) + Gain(rate, b)
    ensures Gain(rate, 0.0) == 0.0
  {
  }

  lemma GainSign(rate: real, elapsed: real)
    requires elapsed >= 0.0
    ensures rate >= 0.0 ==> Gain(rate, elapsed) >= 0.0
    ensures rate <= 0.0 ==> Gain(rate, elapsed) <= 0.0
  {
    if rate < 0.0 {
      assert elapsed * -rate >= 0.0;
    }
  }

  lemma {:induction false} RunJoins(c: Config, bs: Buckets, xs: seq<Event>, ys: seq<Event>, key: string, start: real)
    ensures Run(c, bs, xs + ys) == Run(c, Run(c, bs, xs), ys)
    ensures AdmittedCount(c, bs, xs + ys, key)
            == AdmittedCount(c, bs, xs, key) + AdmittedCount(c, Run(c, bs, xs), ys, key)
    ensures Chronological(start, xs + ys) <==> Chronological(start, xs) && Chronological(EndOf(start, xs), ys)
    ensures EndOf(start, xs + ys) == EndOf(EndOf(start, xs), ys)
    decreases |xs|
  {
    if xs == [] {
      assert xs + ys == ys;
    } else {
      assert (xs + ys)[1..] == xs[1..] + ys;
      RunJoins(c, Step(c, bs, xs[0]), xs[1..], ys, key, xs[0].at);
    }
  }

  lemma {:induction false} EndIsLater(start: real, events: seq<Event>)
    requires Chronological(start, events)
    ensures start <= EndOf(start, events)
    decreases |events|
  {
    if events != [] {
      EndIsLater(events[0].at, events[1..]);
    }
  }

  /** A stored bucket was last refilled in the past; it never holds more than the burst size,
      and never a negative amount where the configuration allows calls and refills. */
  predicate SoundBucket(c: Config, b: Bucket, now: real) {
    && b.lastRefill <= now
    && b.tokens <= Burst(c)
    && (c.burstSize >= 0 && c.requestsPerMinute >= 0 ==> b.tokens >= 0.0)
  }

  ghost predicate Sound(c: Config, bs: Buckets, now: real) {
    forall k :: k in bs ==> SoundBucket(c, bs[k], now)
  }

  lemma ConsumeKeepsSound(c: Config, b: Bucket, now: real)
    requires SoundBucket(c, b, now)
    ensures SoundBucket(c, Consumed(c, b, now).0, now)
  {
    GainSign(Rate(c), now - b.lastRefill);
  }

  lemma StepKeepsSound(c: Config, bs: Buckets, e: Event)
    requires Sound(c, bs, e.at)
    ensures Sound(c, Step(c, bs, e), e.at)
  {
    if e.Call? {
      ConsumeKeepsSound(c, BucketFor(c, bs, e.key, e.at), e.at);
    }
  }

  lemma {:induction false} RunsAreSound(c: Config, bs: Buckets, start: real, events: seq<Event>)
    requires Chronological(start, events) && Sound(c, bs, start)
    ensures Sound(c, Run(c, bs, events), EndOf(start, events))
    decreases |events|
  {
    if events != [] {
      StepKeepsSound(c, bs, events[0]);
      RunsAreSound(c, Step(c, bs, events[0]), events[0].at, events[1..]);
    }
  }

  /** A swept bucket would have been full at that moment, and at any later one. */
  lemma SweptBucketIsFull(c: Config, b: Bucket, swept: real, now: real)
    requires c.burstSize <= 10 * c.requestsPerMinute && c.burstSize >= 0
    requires b.tokens >= 0.0 && swept - b.lastRefill > IdleLimit && swept <= now
    ensures Refilled(c, b, now) == Burst(c)
  {
    GainSplits(Rate(c), IdleLimit, now - b.lastRefill - IdleLimit);
    GainSign(Rate(c), now - b.lastRefill - IdleLimit);
    assert Gain(Rate(c), IdleLimit) == (10 * c.requestsPerMinute) as real;
  }

  // ---------------------------------------------------------------------------------------
  // How many calls a window can admit
  // ---------------------------------------------------------------------------------------

  /** The calls a key could still make at once, never counted below zero. */
  function Level(c: Config, bs: Buckets, key: string, now: real): real {
    Max(0.0, if key in bs then Refilled(c, bs[key], now) else Burst(c))
  }

  function RefillRate(c: Config): real { Max(0.0, Rate(c)) }

  lemma RefilledGrowsAtMostAtRate(c: Config, b: Bucket, now: real, later: real)
    requires now <= later
    ensures Refilled(c, b, later) <= Refilled(c, b, now) + Gain(RefillRate(c), later - now)
    ensures Gain(RefillRate(c), later - now) >= 0.0
  {
    GainSplits(Rate(c), now - b.lastRefill, later - now);
    GainSign(Rate(c), later - now);
    GainSign(RefillRate(c), later - now);
  }

  lemma LevelGrowsAtMostAtRate(c: Config, bs: Buckets, key: string, now: real, later: real)
    requires now <= later
    ensures Level(c, bs, key, later) <= Level(c, bs, key, now) + Gain(RefillRate(c), later - now)
  {
    var b := if key in bs then bs[key] else Bucket(0.0, now);
    RefilledGrowsAtMostAtRate(c, b, now, later);
  }

  /** One event takes from a key's level exactly what it admits, and a sweep adds nothing. */
  lemma StepSpendsLevel(c: Config, bs: Buckets, e: Event, key: string)
    requires Sound(c, bs, e.at)
    requires e.Sweep? ==> EvictionSafe(c)
    ensures Level(c, Step(c, bs, e), key, e.at)
            == Level(c, bs, key, e.at) - (if Admits(c, bs, e, key) then 1.0 else 0.0)
  {
    match e
    case Call(k, at) =>
      var b := BucketFor(c, bs, k, at);
      GainSplits(Rate(c), 0.0, 0.0);
      assert k !in bs ==> Refilled(c, b, at) == Burst(c);
    case Sweep(at) =>
      if key in bs && at - bs[key].lastRefill > IdleLimit && c.burstSize > 0 {
        SweptBucketIsFull(c, bs[key], at, at);
      }
  }

  lemma {:induction false} SpentWithin(c: Config, bs: Buckets, start: real, events: seq<Event>, key: string)
    requires Sound(c, bs, start) && Chronological(start, events)
    requires EvictionSafe(c) || WithoutSweeps(events) == events
    ensures AdmittedCount(c, bs, events, key) as real
            <= Level(c, bs, key, start) + Gain(RefillRate(c), EndOf(start, events) - start)
    decreases |events|
  {
    if events == [] {
      assert Gain(RefillRate(c), 0.0) == 0.0;
    } else {
      var e, rest := events[0], events[1..];
      assert WithoutSweeps(events) == events ==> e.Call? && WithoutSweeps(rest) == rest by {
        WithoutSweepsShortens(rest);
      }
      StepKeepsSound(c, bs, e);
      SpentWithin(c, Step(c, bs, e), e.at, rest, key);
      StepSpendsLevel(c, bs, e, key);
      LevelGrowsAtMostAtRate(c, bs, key, start, e.at);
      GainSplits(RefillRate(c), e.at - start, EndOf(start, events) - e.at);
    }
  }

  lemma {:induction false} WithoutSweepsShortens(events: seq<Event>)
    ensures |WithoutSweeps(events)| <= |events|
  {
    if events != [] {
      WithoutSweepsShortens(events[1..]);
    }
  }

  /** Within any window of a run, a key is admitted at most the burst size plus what the
      configured rate supplies during the window.  Sweeps inside the window do not matter
      under a safe configuration. */
  lemma {:induction false} WindowBound(c: Config, start: real, before: seq<Event>, window: seq<Event>, key: string)
    requires Chronological(start, before + window) && window != []
    requires EvictionSafe(c) || WithoutSweeps(window) == window
    ensures AdmittedCount(c, Run(c, map[], before), window, key) as real
            <= Max(0.0, Burst(c)) + Gain(RefillRate(c), EndOf(start, window) - window[0].at)
  {
    RunJoins(c, map[], before, window, key, start);
    RunsAreSound(c, map[], start, before);
    SpentWithin(c, Run(c, map[], before), window[0].at, window, key);
  }

  // ---------------------------------------------------------------------------------------
  // Eviction cannot be observed
  // ---------------------------------------------------------------------------------------

  /** The swept table lacks some buckets of the full one, but only full buckets. */
  ghost predicate Indistinguishable(c: Config, swept: Buckets, full: Buckets, now: real) {
    && (forall k :: k in swept ==> k in full && full[k] == swept[k])
    && (forall k, t :: k in full && k !in swept && t >= now ==> Refilled(c, full[k], t) == Burst(c))
  }

  lemma SameDecision(c: Config, swept: Buckets, full: Buckets, key: string, now: real)
    requires Indistinguishable(c, swept, full, now)
    ensures Decision(c, swept, key, now) == Decision(c, full, key, now)
    ensures Indistinguishable(c, AfterAllow(c, swept, key, now), AfterAllow(c, full, key, now), now)
  {
    GainSplits(Rate(c), 0.0, 0.0);
    assert key in full && key !in swept ==> Refilled(c, full[key], now) == Burst(c);
  }

  lemma SweepKeepsIndistinguishable(c: Config, swept: Buckets, full: Buckets, now: real)
    requires c.burstSize <= 10 * c.requestsPerMinute && c.burstSize >= 0
    requires Sound(c, swept, now) && Indistinguishable(c, swept, full, now)
    ensures Indistinguishable(c, AfterCleanup(swept, now), full, now)
  {
    forall k, t | k in full && k !in AfterCleanup(swept, now) && t >= now
      ensures Refilled(c, full[k], t) == Burst(c)
    {
      if k in swept {
        SweptBucketIsFull(c, swept[k], now, t);
      }
    }
  }

  lemma {:induction false} SweepingSimulates(
    c: Config, swept: Buckets, full: Buckets, start: real, events: seq<Event>)
    requires c.burstSize <= 10 * c.requestsPerMinute && c.burstSize >= 0
    requires Chronological(start, events) && Sound(c, swept, start) && Indistinguishable(c, swept, full, start)
    ensures Indistinguishable(c, Run(c, swept, events), Run(c, full, WithoutSweeps(events)), EndOf(start, events))
    decreases |events|
  {
    if events != [] {
      var e, rest := events[0], events[1..];
      StepKeepsSound(c, swept, e);
      match e
      case Call(key, at) =>
        SameDecision(c, swept, full, key, at);
        SweepingSimulates(c, Step(c, swept, e), Step(c, full, e), at, rest);
        assert WithoutSweeps(events)[1..] == WithoutSweeps(rest);
      case Sweep(at) =>
        SweepKeepsIndistinguishable(c, swept, full, at);
        SweepingSimulates(c, Step(c, swept, e), full, at, rest);
    }
  }

  /** After any run, the next decision is the one it would be had no sweep ever happened. */
  ghost predicate EvictionInvisible(c: Config) {
    forall start: real, events: seq<Event>, key: string, now: real ::
      Chronological(start, events) && EndOf(start, events) <= now ==> SweepsDoNotShow(c, events, key, now)
  }

  ghost predicate SweepsDoNotShow(c: Config, events: seq<Event>, key: string, now: real) {
    Decision(c, Run(c, map[], events), key, now) == Decision(c, Run(c, map[], WithoutSweeps(events)), key, now)
  }

  lemma {:induction false} SafeMeansInvisible(c: Config)
    requires EvictionSafe(c)
    ensures EvictionInvisible(c)
  {
    forall start: real, events: seq<Event>, key: string, now: real
      | Chronological(start, events) && EndOf(start, events) <= now
      ensures SweepsDoNotShow(c, events, key, now)
    {
      var swept, full := Run(c, map[], events), Run(c, map[], WithoutSweeps(events));
      if c.burstSize > 0 {
        SweepingSimulates(c, map[], map[], start, events);
        SameDecision(c, swept, full, key, now);
      } else {
        assert !Decision(c, swept, key, now) && !Decision(c, full, key, now);
      }
    }
  }

  // ---------------------------------------------------------------------------------------
  // The condition is exact
  // ---------------------------------------------------------------------------------------

  function Calls(key: string, at: real, n: nat): seq<Event> {
    if n == 0 then [] else [Call(key, at)] + Calls(key, at, n - 1)
  }

  /** The tokens a call for the key would find. */
  function Available(c: Config, bs: Buckets, key: string, now: real): real {
    Refilled(c, BucketFor(c, bs, key, now), now)
  }

  lemma FreshBucketIsFull(c: Config, bs: Buckets, key: string, at: real)
    requires key !in bs
    ensures Available(c, bs, key, at) == Burst(c)
  {
    GainSplits(Rate(c), 0.0, 0.0);
  }

  lemma OneCall(c: Config, bs: Buckets, key: string, at: real)
    requires Available(c, bs, key, at) >= 1.0
    ensures Decision(c, bs, key, at)
    ensures AfterAllow(c, bs, key, at) == bs[key := Bucket(Available(c, bs, key, at) - 1.0, at)]
    ensures Available(c, AfterAllow(c, bs, key, at), key, at) == Available(c, bs, key, at) - 1.0
  {
    GainSplits(Rate(c), 0.0, 0.0);
  }

  /** As many calls at one instant as there are tokens are all admitted, and use one token each. */
  lemma {:induction false} CallsUseTokens(c: Config, bs: Buckets, key: string, at: real, n: nat)
    requires n as real <= Available(c, bs, key, at)
    ensures var left := Available(c, bs, key, at) - n as real;
            && Available(c, Run(c, bs, Calls(key, at, n)), key, at) == left
            && (n > 0 ==> Lookup(Run(c, bs, Calls(key, at, n)), key) == Some(Bucket(left, at)))
    ensures AdmittedCount(c, bs, Calls(key, at, n), key) == n
    ensures Chronological(at, Calls(key, at, n)) && EndOf(at, Calls(key, at, n)) == at
    ensures WithoutSweeps(Calls(key, at, n)) == Calls(key, at, n)
    decreases n
  {
    if n > 0 {
      OneCall(c, bs, key, at);
      assert Calls(key, at, n)[1..] == Calls(key, at, n - 1);
      CallsUseTokens(c, AfterAllow(c, bs, key, at), key, at, n - 1);
    }
  }

  /** A little over ten minutes, too little more to earn a further token. */
  function JustIdle(c: Config): real {
    IdleLimit + 1.0 / (if c.requestsPerMinute > 0 then c.requestsPerMinute as real + 1.0 else 1.0)
  }

  lemma GainWhileJustIdle(c: Config)
    ensures JustIdle(c) > IdleLimit
    ensures c.requestsPerMinute >= 0 ==>
              var tenMinutes := (10 * c.requestsPerMinute) as real;
              tenMinutes <= Gain(Rate(c), JustIdle(c)) < tenMinutes + 1.0
    ensures c.requestsPerMinute < 0 ==> Gain(Rate(c), JustIdle(c)) <= 0.0
  {
    GainSplits(Rate(c), IdleLimit, JustIdle(c) - IdleLimit);
    GainSign(Rate(c), JustIdle(c));
    GainSign(Rate(c), JustIdle(c) - IdleLimit);
    assert Gain(Rate(c), IdleLimit) == (10 * c.requestsPerMinute) as real;
    if c.requestsPerMinute > 0 {
      var r, d := c.requestsPerMinute as real, JustIdle(c) - IdleLimit;
      assert d * (r + 1.0) == 1.0;
      assert Gain(Rate(c), d) == d * r / 60.0;
      assert d * r == 1.0 - d;
    }
  }

  /** Use up the burst at time zero, then let the bucket be swept. */
  function DrainAndSweep(c: Config, key: string): seq<Event>
    requires c.burstSize > 0
  {
    Calls(key, 0.0, c.burstSize) + [Sweep(JustIdle(c))]
  }

  lemma {:induction false} WithoutSweepsJoins(xs: seq<Event>, ys: seq<Event>)
    ensures WithoutSweeps(xs + ys) == WithoutSweeps(xs) + WithoutSweeps(ys)
  {
    if xs == [] {
      assert xs + ys == ys;
    } else {
      assert (xs + ys)[1..] == xs[1..] + ys;
      WithoutSweepsJoins(xs[1..], ys);
    }
  }

  /** Draining leaves an empty bucket, and the sweep then leaves none. */
  lemma {:induction false} DrainedThenSwept(c: Config, key: string)
    requires c.burstSize > 0
    ensures Lookup(Run(c, map[], Calls(key, 0.0, c.burstSize)), key) == Some(Bucket(0.0, 0.0))
    ensures AdmittedCount(c, map[], DrainAndSweep(c, key), key) == c.burstSize
    ensures key !in Run(c, map[], DrainAndSweep(c, key))
    ensures Chronological(0.0, DrainAndSweep(c, key)) && EndOf(0.0, DrainAndSweep(c, key)) == JustIdle(c)
    ensures WithoutSweeps(DrainAndSweep(c, key)) == Calls(key, 0.0, c.burstSize)
  {
    var drain, sweep := Calls(key, 0.0, c.burstSize), [Sweep(JustIdle(c))];
    FreshBucketIsFull(c, map[], key, 0.0);
    CallsUseTokens(c, map[], key, 0.0, c.burstSize);
    RunJoins(c, map[], drain, sweep, key, 0.0);
    WithoutSweepsJoins(drain, sweep);
    assert JustIdle(c) > IdleLimit by { GainWhileJustIdle(c); }
  }

  /** After the sweep a further call is admitted that would be refused without the sweep. */
  lemma {:induction false} SweepShows(c: Config, swept: Buckets, drained: Buckets, key: string, m: nat)
    requires !EvictionSafe(c) && m == if c.requestsPerMinute > 0 then 10 * c.requestsPerMinute else 0
    requires key !in swept && Lookup(drained, key) == Some(Bucket(0.0, 0.0))
    ensures Decision(c, Run(c, swept, Calls(key, JustIdle(c), m)), key, JustIdle(c))
    ensures !Decision(c, Run(c, drained, Calls(key, JustIdle(c), m)), key, JustIdle(c))
  {
    var now := JustIdle(c);
    FreshBucketIsFull(c, swept, key, now);
    CallsUseTokens(c, swept, key, now, m);
    OneCall(c, Run(c, swept, Calls(key, now, m)), key, now);
    GainWhileJustIdle(c);
    assert Available(c, drained, key, now) < m as real + 1.0;
    if m > 0 {
      CallsUseTokens(c, drained, key, now, m);
    }
  }

  lemma {:induction false} UnsafeMeansVisible(c: Config)
    requires !EvictionSafe(c)
    ensures !EvictionInvisible(c)
  {
    var key, now := "k", JustIdle(c);
    var m: nat := if c.requestsPerMinute > 0 then 10 * c.requestsPerMinute else 0;
    var swept, drain, more := DrainAndSweep(c, key), Calls(key, 0.0, c.burstSize), Calls(key, now, m);
    DrainedThenSwept(c, key);
    SweepShows(c, Run(c, map[], swept), Run(c, map[], drain), key, m);
    FreshBucketIsFull(c, Run(c, map[], swept), key, now);
    CallsUseTokens(c, Run(c, map[], swept), key, now, m);
    RunJoins(c, map[], swept, more, key, 0.0);
    RunJoins(c, map[], drain, more, key, 0.0);
    WithoutSweepsJoins(swept, more);
    assert !SweepsDoNotShow(c, swept + more, key, now);
  }

  /** Sweeping idle buckets is invisible, for every run, exactly under a safe configuration. */
  lemma {:induction false} EvictionInvisibleIff(c: Config)
    ensures EvictionInvisible(c) <==> EvictionSafe(c)
  {
    if EvictionSafe(c) {
      SafeMeansInvisible(c);
    } else {
      UnsafeMeansVisible(c);
    }
  }

  ghost predicate WindowsBounded(c: Config) {
    forall start: real, before: seq<Event>, window: seq<Event>, key: string
      {:trigger Chronological(start, before + window), AdmittedCount(c, Run(c, map[], before), window, key)} ::
      Chronological(start, before + window) && window != [] ==>
      AdmittedCount(c, Run(c, map[], before), window, key) as real
      <= Max(0.0, Burst(c)) + Gain(RefillRate(c), EndOf(start, window) - window[0].at)
  }

  lemma {:induction false} TwoBurstsInOneWindow(c: Config)
    requires !EvictionSafe(c)
    ensures !WindowsBounded(c)
  {
    var key, now, n := "k", JustIdle(c), c.burstSize;
    var swept, again := DrainAndSweep(c, key), Calls(key, now, n);
    DrainedThenSwept(c, key);
    FreshBucketIsFull(c, Run(c, map[], swept), key, now);
    CallsUseTokens(c, Run(c, map[], swept), key, now, n);
    RunJoins(c, map[], swept, again, key, 0.0);
    assert [] + (swept + again) == swept + again;
    assert AdmittedCount(c, Run(c, map[], []), swept + again, key) == 2 * n;
    assert Gain(RefillRate(c), now) < Burst(c) by {
      GainWhileJustIdle(c);
      assert Gain(0.0, now) == 0.0;
    }
  }

  /** With sweeps running, the window bound holds for every run exactly under a safe
      configuration; otherwise a drained key gets a second full burst after a sweep. */
  lemma {:induction false} WindowsBoundedIff(c: Config)
    ensures WindowsBounded(c) <==> EvictionSafe(c)
  {
    if EvictionSafe(c) {
      forall start: real, before: seq<Event>, window: seq<Event>, key: string
        | Chronological(start, before + window) && window != []
        ensures AdmittedCount(c, Run(c, map[], before), window, key) as real
                <= Max(0.0, Burst(c)) + Gain(RefillRate(c), EndOf(start, window) - window[0].at)
      {
        WindowBound(c, start, before, window, key);
      }
    } else {
      TwoBurstsInOneWindow(c);
    }
  }

  // ---------------------------------------------------------------------------------------
  // Keys do not interfere
  // ---------------------------------------------------------------------------------------

  function Concerning(events: seq<Event>, key: string): seq<Event> {
    if events == [] then []
    else if events[0].Sweep? || events[0].key == key then [events[0]] + Concerning(events[1..], key)
    else Concerning(events[1..], key)
  }

  lemma {:induction false} OnlyOwnCallsMatter(c: Config, bs: Buckets, own: Buckets, events: seq<Event>, key: string)
    requires Lookup(bs, key) == Lookup(own, key)
    ensures Lookup(Run(c, bs, events), key) == Lookup(Run(c, own, Concerning(events, key)), key)
    ensures AdmittedCount(c, bs, events, key) == AdmittedCount(c, own, Concerning(events, key), key)
    decreases |events|
  {
    if events != [] {
      var e, rest := events[0], events[1..];
      if e.Sweep? || e.key == key {
        assert Concerning(events, key)[1..] == Concerning(rest, key);
        OnlyOwnCallsMatter(c, Step(c, bs, e), Step(c, own, e), rest, key);
      } else {
        OnlyOwnCallsMatter(c, Step(c, bs, e), own, rest, key);
      }
    }
  }

  /** Two runs that agree on one key's calls and on the sweeps admit that key alike, now and next. */
  lemma {:induction false} KeysAreIsolated(c: Config, one: seq<Event>, other: seq<Event>, key: string, now: real)
    requires Concerning(one, key) == Concerning(other, key)
    ensures AdmittedCount(c, map[], one, key) == AdmittedCount(c, map[], other, key)
    ensures Decision(c, Run(c, map[], one), key, now) == Decision(c, Run(c, map[], other), key, now)
  {
    OnlyOwnCallsMatter(c, map[], map[], one, key);
    OnlyOwnCallsMatter(c, map[], map[], other, key);
  }

  // ---------------------------------------------------------------------------------------
  // Batches: check the stored balance, then consume one token per item
  // ---------------------------------------------------------------------------------------

  /** Consume one token per instant until a call is refused; were all admitted? */
  function ConsumeAll(c: Config, bs: Buckets, key: string, times: seq<real>): (Buckets, bool)
    decreases |times|
  {
    if times == [] then (bs, true)
    else if Decision(c, bs, key, times[0]) then ConsumeAll(c, AfterAllow(c, bs, key, times[0]), key, times[1..])
    else (AfterAllow(c, bs, key, times[0]), false)
  }

  predicate InOrder(start: real, times: seq<real>)
    decreases |times|
  {
    times == [] || (start <= times[0] && InOrder(times[0], times[1..]))
  }

  /** A batch that passes the check of the stored balance is admitted in full. */
  ghost predicate NeverCutShort(c: Config, bs: Buckets, key: string, times: seq<real>) {
    (if key in bs then bs[key].tokens >= |times| as real else c.burstSize >= |times|)
    ==> ConsumeAll(c, bs, key, times).1
  }

  ghost predicate BatchesNeverCutShort(c: Config) {
    forall start: real, events: seq<Event>, key: string, times: seq<real>
      {:trigger InOrder(EndOf(start, events), times), NeverCutShort(c, Run(c, map[], events), key, times)} ::
      Chronological(start, events) && InOrder(EndOf(start, events), times) ==>
      NeverCutShort(c, Run(c, map[], events), key, times)
  }

  predicate BatchCheckSuffices(c: Config) {
    c.requestsPerMinute >= 0 || c.burstSize <= 1
  }

  /** With a non-negative rate, n tokens in store are enough for n calls at later instants. */
  lemma {:induction false} StoredTokensSuffice(c: Config, bs: Buckets, start: real, key: string, times: seq<real>)
    requires c.requestsPerMinute >= 0 && InOrder(start, times) && Sound(c, bs, start)
    requires if key in bs then bs[key].tokens >= |times| as real else c.burstSize >= |times|
    ensures ConsumeAll(c, bs, key, times).1
    decreases |times|
  {
    if times != [] {
      var now := times[0];
      var b := BucketFor(c, bs, key, now);
      GainSign(Rate(c), now - b.lastRefill);
      assert Available(c, bs, key, now) >= |times| as real;
      OneCall(c, bs, key, now);
      StepKeepsSound(c, bs, Call(key, now));
      StoredTokensSuffice(c, AfterAllow(c, bs, key, now), now, key, times[1..]);
    }
  }

  ghost predicate NothingStored(bs: Buckets) {
    forall k :: k in bs ==> bs[k].tokens <= 0.0
  }

  /** Where waiting costs tokens and the burst is at most one, stored buckets are empty. */
  lemma {:induction false} NegativeRateLeavesNothing(c: Config, bs: Buckets, start: real, events: seq<Event>)
    requires c.requestsPerMinute < 0 && c.burstSize <= 1
    requires Chronological(start, events) && Sound(c, bs, start) && NothingStored(bs)
    ensures NothingStored(Run(c, bs, events))
    decreases |events|
  {
    if events != [] {
      var e := events[0];
      if e.Call? {
        GainSplits(Rate(c), 0.0, 0.0);
        GainSign(Rate(c), e.at - BucketFor(c, bs, e.key, e.at).lastRefill);
      }
      StepKeepsSound(c, bs, e);
      NegativeRateLeavesNothing(c, Step(c, bs, e), e.at, events[1..]);
    }
  }

  lemma {:induction false} SufficientBatch(
    c: Config, start: real, events: seq<Event>, key: string, times: seq<real>)
    requires BatchCheckSuffices(c) && Chronological(start, events) && InOrder(EndOf(start, events), times)
    ensures NeverCutShort(c, Run(c, map[], events), key, times)
  {
    var bs := Run(c, map[], events);
    if !ConsumeAll(c, bs, key, times).1 && (key in bs ==> bs[key].tokens >= |times| as real)
       && (key !in bs ==> c.burstSize >= |times|)
    {
      if c.requestsPerMinute >= 0 {
        RunsAreSound(c, map[], start, events);
        StoredTokensSuffice(c, bs, EndOf(start, events), key, times);
      } else {
        NegativeRateLeavesNothing(c, map[], start, events);
        assert |times| == 1 && key !in bs && c.burstSize == 1;
        FreshBucketIsFull(c, bs, key, times[0]);
        OneCall(c, bs, key, times[0]);
      }
    }
  }

  function CallsThenOneMore(at: real, n: nat, last: real): seq<real> {
    if n == 0 then [last] else [at] + CallsThenOneMore(at, n - 1, last)
  }

  /** Where waiting costs tokens, the last token is gone before the last call comes. */
  lemma {:induction false} LastCallComesTooLate(c: Config, bs: Buckets, key: string, at: real, n: nat, last: real)
    requires Available(c, bs, key, at) == (n + 1) as real && last > at && c.requestsPerMinute < 0
    requires n == 0 ==> Lookup(bs, key) == Some(Bucket(1.0, at))
    ensures !ConsumeAll(c, bs, key, CallsThenOneMore(at, n, last)).1
    ensures InOrder(at, CallsThenOneMore(at, n, last)) && |CallsThenOneMore(at, n, last)| == n + 1
    decreases n
  {
    var times := CallsThenOneMore(at, n, last);
    if n == 0 {
      assert Gain(Rate(c), last - at) < 0.0;
    } else {
      OneCall(c, bs, key, at);
      assert times[1..] == CallsThenOneMore(at, n - 1, last);
      LastCallComesTooLate(c, AfterAllow(c, bs, key, at), key, at, n - 1, last);
    }
  }

  /** A batch that passes the balance check has all its calls admitted, from every reachable
      state and at any later instants, exactly when waiting cannot cost tokens (or the burst
      allows no more than one call anyway). */
  lemma {:induction false} BatchesNeverCutShortIff(c: Config)
    ensures BatchesNeverCutShort(c) <==> BatchCheckSuffices(c)
  {
    if BatchCheckSuffices(c) {
      forall start: real, events: seq<Event>, key: string, times: seq<real>
        | Chronological(start, events) && InOrder(EndOf(start, events), times)
        ensures NeverCutShort(c, Run(c, map[], events), key, times)
      {
        SufficientBatch(c, start, events, key, times);
      }
    } else {
      var times := CallsThenOneMore(0.0, c.burstSize - 1, 1.0);
      FreshBucketIsFull(c, map[], "k", 0.0);
      LastCallComesTooLate(c, map[], "k", 0.0, c.burstSize - 1, 1.0);
      assert InOrder(EndOf(0.0, []), times);
      assert !NeverCutShort(c, Run(c, map[], []), "k", times);
    }
  }

  function Instants(at: real, n: nat): seq<real> { if n == 0 then [] else [at] + Instants(at, n - 1) }

  /** Calls at one instant take a token each, one by one or as a batch. */
  lemma {:induction false} CallsTakeTokens(c: Config, bs: Buckets, key: string, at: real, n: nat, tokens: real)
    requires BucketFor(c, bs, key, at) == Bucket(tokens, at) && n as real <= tokens <= Burst(c)
    ensures var bs' := Run(c, bs, Calls(key, at, n));
            && (n > 0 || key in bs <==> key in bs')
            && BucketFor(c, bs', key, at) == Bucket(tokens - n as real, at)
            && ConsumeAll(c, bs, key, Instants(at, n)) == (bs', true)
    ensures AdmittedCount(c, bs, Calls(key, at, n), key) == n && |Instants(at, n)| == n
    decreases n
  {
    if n > 0 {
      GainSplits(Rate(c), 0.0, 0.0);
      OneCall(c, bs, key, at);
      assert Calls(key, at, n)[1..] == Calls(key, at, n - 1);
      assert Instants(at, n)[1..] == Instants(at, n - 1);
      CallsTakeTokens(c, AfterAllow(c, bs, key, at), key, at, n - 1, tokens - 1.0);
    }
  }

  /** On a key not seen before, any number of calls up to the burst is admitted at one instant.  A
      batch at that instant then passes the balance check exactly if its size is at most the burst
      less those calls, and it is then admitted in full. */
  lemma FreshKeyBatch(c: Config, bs: Buckets, key: string, at: real, calls: nat, size: nat)
    requires key !in bs && calls <= c.burstSize
    ensures AdmittedCount(c, bs, Calls(key, at, calls), key) == calls
    ensures var bs' := Run(c, bs, Calls(key, at, calls));
            && (size <= c.burstSize - calls <==>
                if key in bs' then bs'[key].tokens >= size as real else c.burstSize >= size)
            && (size <= c.burstSize - calls ==>
                var (after, admitted) := ConsumeAll(c, bs', key, Instants(at, size));
                && admitted && (key in after ==> after[key] == Bucket((c.burstSize - calls - size) as real, at))
                && (key in after <==> calls + size > 0))
  {
    CallsTakeTokens(c, bs, key, at, calls, Burst(c));
    var bs' := Run(c, bs, Calls(key, at, calls));
    if size <= c.burstSize - calls {
      CallsTakeTokens(c, bs', key, at, size, Burst(c) - calls as real);
    }
  }

  // ---------------------------------------------------------------------------------------
  // The limiter
  // ---------------------------------------------------------------------------------------

  class TokenBucket {
    var tokens: real
    var lastRefill: real

    constructor (tokens: real, now: real)
      ensures View() == Bucket(tokens, now)
    {
      this.tokens, lastRefill := tokens, now;
    }

    function View(): Bucket
      reads this
    {
      Bucket(tokens, lastRefill)
    }

    method Consume(config: Config, now: real) returns (allowed: bool)
      modifies this
      ensures (View(), allowed) == Consumed(config, old(View()), now)
    {
      var elapsed := now - lastRefill;
      var tokensToAdd := Gain(Rate(config), elapsed);
      tokens := Min(tokens + tokensToAdd, config.burstSize as real);
      lastRefill := now;
      if tokens >= 1.0 {
        tokens := tokens - 1.0;
        return true;
      }
      return false;
    }
  }

  datatype BatchOutcome = Forwarded | NotEnoughTokens | RefusedMidBatch

  class RateLimiter {
    var buckets: map<string, TokenBucket>
    const config: Config

    /** Different keys never share a bucket. */
    ghost predicate Valid()
      reads this
    {
      forall j, k :: j in buckets && k in buckets && j != k ==> buckets[j] != buckets[k]
    }

    ghost function Repr(): set<TokenBucket>
      reads this
    {
      set k | k in buckets :: buckets[k]
    }

    ghost function Contents(): Buckets
      reads this, Repr()
    {
      map k | k in buckets :: buckets[k].View()
    }

    constructor (config: Config)
      ensures Valid() && Contents() == map[] && this.config == config
    {
      buckets := map[];
      this.config := config;
    }

    /** The first half of a call: the key's bucket, made when there is none. */
    method BucketOf(key: string, now: real) returns (bucket: TokenBucket)
      requires Valid()
      modifies this
      ensures Valid() && fresh(Repr() - old(Repr()))
      ensures Contents() == old(Contents())[key := BucketFor(config, old(Contents()), key, now)]
      ensures key in buckets && buckets[key] == bucket
      ensures forall k :: k in old(buckets) ==> k in buckets && buckets[k] == old(buckets)[k]
      ensures forall k :: k in buckets ==> k in old(buckets) || k == key
      ensures key !in old(buckets) ==> fresh(bucket)
    {
      if key !in buckets {
        var made := new TokenBucket(config.burstSize as real, now);
        buckets := buckets[key := made];
      }
      bucket := buckets[key];
    }

    /** The second half of a call whose bucket is still in the table. */
    method ChargeBucket(key: string, bucket: TokenBucket, now: real) returns (allowed: bool)
      requires Valid() && key in buckets && buckets[key] == bucket
      modifies bucket
      ensures Valid() && Repr() == old(Repr())
      ensures (Contents()[key], allowed) == Consumed(config, old(Contents()[key]), now)
      ensures Contents() == old(Contents())[key := Contents()[key]]
    {
      allowed := bucket.Consume(config, now);
    }

    /** A call that no sweep or reset comes between. */
    method Allow(key: string, now: real) returns (allowed: bool)
      requires Valid()
      modifies this, Repr()
      ensures Valid() && fresh(Repr() - old(Repr()))
      ensures Contents() == AfterAllow(config, old(Contents()), key, now)
      ensures allowed == Decision(config, old(Contents()), key, now)
    {
      var bucket := BucketOf(key, now);
      allowed := ChargeBucket(key, bucket, now);
    }

    /** One tick of the cleanup loop. */
    method Cleanup(now: real)
      requires Valid()
      modifies this
      ensures Valid() && Repr() <= old(Repr())
      ensures Contents() == AfterCleanup(old(Contents()), now)
    {
      var pending := buckets.Keys;
      while pending != {}
        invariant pending <= buckets.Keys <= old(buckets).Keys
        invariant forall k :: k in buckets ==> buckets[k] == old(buckets)[k]
        invariant forall k :: k in old(buckets) && k !in pending ==>
                    (k in buckets <==> now - old(buckets)[k].lastRefill <= IdleLimit)
      {
        var key :| key in pending;
        if now - buckets[key].lastRefill > 600.0 {
          buckets := buckets - {key};
        }
        pending := pending - {key};
      }
    }

    function GetRemainingTokens(key: string): (remaining: real)
      reads this, Repr()
      ensures key in Contents() ==> remaining == Contents()[key].tokens
      ensures key !in Contents() ==> remaining == config.burstSize as real
    {
      if key !in buckets then config.burstSize as real else buckets[key].tokens
    }

    method Reset(key: string)
      requires Valid()
      modifies this
      ensures Valid() && Repr() <= old(Repr())
      ensures Contents() == old(Contents()) - {key}
    {
      buckets := buckets - {key};
    }

    /** The batch path of the middleware: item i reads the clock as times[i]. */
    method AdmitBatch(key: string, times: seq<real>) returns (outcome: BatchOutcome)
      requires Valid()
      modifies this, Repr()
      ensures Valid() && fresh(Repr() - old(Repr()))
      ensures outcome == NotEnoughTokens <==>
                if key in old(Contents()) then old(Contents())[key].tokens < |times| as real
                else config.burstSize < |times|
      ensures outcome == NotEnoughTokens ==> Contents() == old(Contents())
      ensures outcome != NotEnoughTokens ==>
                (Contents(), outcome == Forwarded) == ConsumeAll(config, old(Contents()), key, times)
    {
      if GetRemainingTokens(key) < |times| as real {
        return NotEnoughTokens;
      }
      for i := 0 to |times|
        invariant Valid() && fresh(Repr() - old(Repr()))
        invariant ConsumeAll(config, old(Contents()), key, times) == ConsumeAll(config, Contents(), key, times[i..])
      {
        var allowed := Allow(key, times[i]);
        if !allowed {
          return RefusedMidBatch;
        }
        assert times[i..][1..] == times[i + 1..];
      }
      outcome := Forwarded;
    }
  }
}
