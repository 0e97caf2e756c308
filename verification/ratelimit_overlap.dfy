/** Calls of the rate limiter that overlap sweeps and resets: pkg/auth/ratelimit.go.

    A call looks its bucket up under the table's lock and is charged later, under the bucket's own
    lock.  A sweep or a reset in between takes the bucket out of the table, and the call is then
    charged to a bucket that nobody else will see.  Buckets are numbered as they are made. */
module OverlappingCalls {
  import opened TokenBuckets

  /** A call between its lookup and its charge. */
  datatype Pending = Pending(key: string, bucket: nat)

  /** "owners" remembers for which key each bucket was made. */
  datatype Limiter = Limiter(
    table: map<string, nat>, heap: seq<Bucket>, owners: seq<string>, pending: map<nat, Pending>)

  const NewLimiter := Limiter(map[], [], [], map[])

  datatype Action =
    | Fetch(call: nat, key: string, at: real)
    | Charge(call: nat, at: real)
    | SweepAll(at: real)
    | Reset(key: string, at: real)

  predicate Enabled(l: Limiter, a: Action) {
    match a
    case Fetch(call, _, _) => call !in l.pending
    case Charge(call, _) => call in l.pending && l.pending[call].bucket < |l.heap|
    case _ => true
  }

  predicate Idle(l: Limiter, key: string, now: real) {
    key in l.table && l.table[key] < |l.heap| && now - l.heap[l.table[key]].lastRefill > IdleLimit
  }

  function After(c: Config, l: Limiter, a: Action): Limiter
    requires Enabled(l, a)
  {
    match a
    case Fetch(call, key, at) =>
      if key in l.table then l.(pending := l.pending[call := Pending(key, l.table[key])])
      else Limiter(l.table[key := |l.heap|], l.heap + [Bucket(Burst(c), at)], l.owners + [key],
                   l.pending[call := Pending(key, |l.heap|)])
    case Charge(call, at) =>
      var i := l.pending[call].bucket;
      l.(heap := l.heap[i := Consumed(c, l.heap[i], at).0], pending := l.pending - {call})
    case SweepAll(at) => l.(table := map k | k in l.table && !Idle(l, k, at) :: l.table[k])
    case Reset(key, _) => l.(table := l.table - {key})
  }

  predicate Admitted(c: Config, l: Limiter, a: Action, key: string) {
    && a.Charge? && Enabled(l, a) && l.pending[a.call].key == key
    && Consumed(c, l.heap[l.pending[a.call].bucket], a.at).1
  }

  // ---------------------------------------------------------------------------------------
  // What every reachable limiter satisfies
  // ---------------------------------------------------------------------------------------

  predicate Owns(l: Limiter, key: string, bucket: nat) {
    bucket < |l.heap| == |l.owners| && l.owners[bucket] == key
  }

  /** The bucket of a key, and of a pending call of the key, was made for that key. */
  ghost predicate WellFormed(l: Limiter) {
    && |l.heap| == |l.owners|
    && (forall k :: k in l.table ==> Owns(l, k, l.table[k]))
    && (forall call :: call in l.pending ==> Owns(l, l.pending[call].key, l.pending[call].bucket))
  }

  ghost predicate SoundLimiter(c: Config, l: Limiter, now: real) {
    WellFormed(l) && forall i :: 0 <= i < |l.heap| ==> SoundBucket(c, l.heap[i], now)
  }

  lemma ActionKeepsWellFormed(c: Config, l: Limiter, a: Action)
    requires WellFormed(l) && Enabled(l, a)
    ensures WellFormed(After(c, l, a))
  {
  }

  lemma ActionKeepsSound(c: Config, l: Limiter, a: Action)
    requires SoundLimiter(c, l, a.at) && Enabled(l, a)
    ensures SoundLimiter(c, After(c, l, a), a.at)
  {
    ActionKeepsWellFormed(c, l, a);
    if a.Charge? {
      ConsumeKeepsSound(c, l.heap[l.pending[a.call].bucket], a.at);
    }
  }

  predicate Possible(c: Config, l: Limiter, actions: seq<Action>)
    decreases |actions|
  {
    actions == [] || (Enabled(l, actions[0]) && Possible(c, After(c, l, actions[0]), actions[1..]))
  }

  /** The clock never runs backwards, from the given start on. */
  predicate InTime(start: real, actions: seq<Action>)
    decreases |actions|
  {
    actions == [] || (start <= actions[0].at && InTime(actions[0].at, actions[1..]))
  }

  function RunOf(c: Config, l: Limiter, actions: seq<Action>): Limiter
    requires Possible(c, l, actions)
    decreases |actions|
  {
    if actions == [] then l else RunOf(c, After(c, l, actions[0]), actions[1..])
  }

  function LastOf(start: real, actions: seq<Action>): real
    decreases |actions|
  {
    if actions == [] then start else LastOf(actions[0].at, actions[1..])
  }

  /** No bucket ever holds more than the burst, comes from the future, or (for sensible numbers) holds
      a negative amount, with lookups, charges, sweeps and resets in any order. */
  lemma {:induction false} RunsStaySound(c: Config, l: Limiter, start: real, actions: seq<Action>)
    requires SoundLimiter(c, l, start) && Possible(c, l, actions) && InTime(start, actions)
    ensures SoundLimiter(c, RunOf(c, l, actions), LastOf(start, actions))
    decreases |actions|
  {
    if actions != [] {
      ActionKeepsSound(c, l, actions[0]);
      RunsStaySound(c, After(c, l, actions[0]), actions[0].at, actions[1..]);
    }
  }

  // ---------------------------------------------------------------------------------------
  // How many calls a window can admit
  // ---------------------------------------------------------------------------------------

  function KeyLevel(c: Config, l: Limiter, key: string, now: real): real {
    Max(0.0, if key in l.table && l.table[key] < |l.heap| then Refilled(c, l.heap[l.table[key]], now) else Burst(c))
  }

  /** The call's bucket is no longer the one in the table. */
  predicate Orphaned(l: Limiter, call: nat, key: string) {
    call in l.pending && l.pending[call].key == key && !(key in l.table && l.table[key] == l.pending[call].bucket)
  }

  function Orphans(l: Limiter, key: string): set<nat> {
    set call | call in l.pending && Orphaned(l, call, key)
  }

  function One(b: bool): nat { if b then 1 else 0 }

  /** How many calls of the key an action cuts off from the table. */
  function CutOff(c: Config, l: Limiter, a: Action, key: string): nat
    requires Enabled(l, a)
  {
    |Orphans(After(c, l, a), key) - Orphans(l, key)|
  }

  function Restored(c: Config, a: Action, key: string): real {
    if a == Reset(key, a.at) then Max(0.0, Burst(c)) else 0.0
  }

  lemma SweepKeepsLevel(c: Config, l: Limiter, at: real, key: string)
    requires SoundLimiter(c, l, at) && EvictionSafe(c)
    ensures KeyLevel(c, After(c, l, SweepAll(at)), key, at) == KeyLevel(c, l, key, at)
  {
    if Idle(l, key, at) && c.burstSize > 0 {
      SweptBucketIsFull(c, l.heap[l.table[key]], at, at);
    }
  }

  /** An admitted call takes a token from its key's level, unless it is an orphan; a reset gives back
      the burst at most; nothing else changes the level. */
  lemma ActionSpendsLevel(c: Config, l: Limiter, a: Action, key: string)
    requires SoundLimiter(c, l, a.at) && Enabled(l, a)
    requires a.SweepAll? ==> EvictionSafe(c)
    ensures KeyLevel(c, After(c, l, a), key, a.at) + One(Admitted(c, l, a, key)) as real
            <= KeyLevel(c, l, key, a.at) + One(a.Charge? && Orphaned(l, a.call, key)) as real
               + Restored(c, a, key)
  {
    GainSplits(Rate(c), 0.0, 0.0);
    match a
    case Fetch(_, _, _) =>
    case Charge(_, _) =>
    case SweepAll(at) => SweepKeepsLevel(c, l, at, key);
    case Reset(_, _) =>
  }

  lemma Moved(was: set<nat>, are: set<nat>, gone: set<nat>)
    requires gone <= was && are >= was - gone && gone * are == {}
    ensures |are| == |was| - |gone| + |are - was|
  {
    assert are == (was - gone) + (are - was);
  }

  /** Only a charge takes an orphan away. */
  lemma OrphansAfter(c: Config, l: Limiter, a: Action, key: string)
    requires WellFormed(l) && Enabled(l, a)
    ensures |Orphans(After(c, l, a), key)| + One(a.Charge? && Orphaned(l, a.call, key))
            == |Orphans(l, key)| + CutOff(c, l, a, key)
  {
    var was, are := Orphans(l, key), Orphans(After(c, l, a), key);
    var gone := if a.Charge? && Orphaned(l, a.call, key) then {a.call} else {};
    assert are >= was - gone;
    Moved(was, are, gone);
  }

  function AdmittedIn(c: Config, l: Limiter, actions: seq<Action>, key: string): nat
    requires Possible(c, l, actions)
    decreases |actions|
  {
    if actions == [] then 0
    else One(Admitted(c, l, actions[0], key)) + AdmittedIn(c, After(c, l, actions[0]), actions[1..], key)
  }

  function CutOffIn(c: Config, l: Limiter, actions: seq<Action>, key: string): nat
    requires Possible(c, l, actions)
    decreases |actions|
  {
    if actions == [] then 0
    else CutOff(c, l, actions[0], key) + CutOffIn(c, After(c, l, actions[0]), actions[1..], key)
  }

  /** What the resets of a key give back at most. */
  function GivenBack(c: Config, actions: seq<Action>, key: string): real {
    if actions == [] then 0.0
    else Restored(c, actions[0], key) + GivenBack(c, actions[1..], key)
  }

  lemma KeyLevelGrowsAtMostAtRate(c: Config, l: Limiter, key: string, now: real, later: real)
    requires now <= later
    ensures KeyLevel(c, l, key, later) <= KeyLevel(c, l, key, now) + Gain(RefillRate(c), later - now)
  {
    var b := if key in l.table && l.table[key] < |l.heap| then l.heap[l.table[key]] else Bucket(0.0, now);
    RefilledGrowsAtMostAtRate(c, b, now, later);
  }

  lemma SoundLater(c: Config, l: Limiter, now: real, later: real)
    requires SoundLimiter(c, l, now) && now <= later
    ensures SoundLimiter(c, l, later)
  {
  }

  /** What a key may still be admitted, apart from refills: its level and its orphans. */
  function Credit(c: Config, l: Limiter, key: string, now: real): real {
    KeyLevel(c, l, key, now) + |Orphans(l, key)| as real
  }

  lemma ActionSpendsCredit(c: Config, l: Limiter, start: real, a: Action, key: string)
    requires SoundLimiter(c, l, start) && Enabled(l, a) && start <= a.at && EvictionSafe(c)
    ensures SoundLimiter(c, After(c, l, a), a.at)
    ensures Credit(c, After(c, l, a), key, a.at) + One(Admitted(c, l, a, key)) as real
            <= Credit(c, l, key, start) + Gain(RefillRate(c), a.at - start) + CutOff(c, l, a, key) as real
               + Restored(c, a, key)
  {
    SoundLater(c, l, start, a.at);
    ActionKeepsSound(c, l, a);
    ActionSpendsLevel(c, l, a, key);
    OrphansAfter(c, l, a, key);
    KeyLevelGrowsAtMostAtRate(c, l, key, start, a.at);
  }

  /** The refills between actions. */
  function RefillOver(c: Config, start: real, actions: seq<Action>): real
    decreases |actions|
  {
    if actions == [] then 0.0
    else Gain(RefillRate(c), actions[0].at - start) + RefillOver(c, actions[0].at, actions[1..])
  }

  lemma {:induction false} RefillsAddUp(c: Config, start: real, actions: seq<Action>)
    ensures RefillOver(c, start, actions) == Gain(RefillRate(c), LastOf(start, actions) - start)
    decreases |actions|
  {
    if actions == [] {
      assert Gain(RefillRate(c), 0.0) == 0.0;
    } else {
      var mid, end := actions[0].at, LastOf(start, actions);
      RefillsAddUp(c, mid, actions[1..]);
      GainSplits(RefillRate(c), mid - start, end - mid);
    }
  }

  lemma {:induction false} AdmittedWithin(c: Config, l: Limiter, start: real, actions: seq<Action>, key: string)
    requires SoundLimiter(c, l, start) && Possible(c, l, actions) && InTime(start, actions) && EvictionSafe(c)
    ensures AdmittedIn(c, l, actions, key) as real
            <= Credit(c, l, key, start) + RefillOver(c, start, actions)
               + CutOffIn(c, l, actions, key) as real + GivenBack(c, actions, key)
    decreases |actions|
  {
    if actions != [] {
      var a, rest := actions[0], actions[1..];
      ActionSpendsCredit(c, l, start, a, key);
      AdmittedWithin(c, After(c, l, a), a.at, rest, key);
    } else {
      LevelNotNegative(c, l, key, start);
    }
  }

  lemma LevelNotNegative(c: Config, l: Limiter, key: string, now: real)
    ensures KeyLevel(c, l, key, now) >= 0.0
  {
  }

  lemma LevelWithinBurst(c: Config, l: Limiter, key: string, now: real)
    ensures KeyLevel(c, l, key, now) <= Max(0.0, Burst(c))
  {
  }

  /** The admissions in a window are at most the burst, plus the refill, plus the calls cut off before
      or in the window, plus what resets give back. */
  ghost predicate WindowWithin(c: Config, l: Limiter, window: seq<Action>, key: string)
    requires Possible(c, l, window) && window != []
  {
    AdmittedIn(c, l, window, key) as real
    <= Max(0.0, Burst(c)) + Gain(RefillRate(c), LastOf(window[0].at, window) - window[0].at)
       + (|Orphans(l, key)| + CutOffIn(c, l, window, key)) as real + GivenBack(c, window, key)
  }

  lemma WindowFrom(c: Config, l: Limiter, window: seq<Action>, key: string)
    requires window != [] && Possible(c, l, window) && InTime(window[0].at, window)
    requires SoundLimiter(c, l, window[0].at) && EvictionSafe(c)
    ensures WindowWithin(c, l, window, key)
  {
    AdmittedWithin(c, l, window[0].at, window, key);
    RefillsAddUp(c, window[0].at, window);
    LevelWithinBurst(c, l, key, window[0].at);
  }

  /** Within any window of any run, with calls overlapping sweeps and resets, a key is admitted at
      most the burst, plus what the rate supplies, plus the calls that a sweep or a reset has cut
      off between their lookup and their charge, plus the burst once more for each reset. */
  lemma {:induction false} OverlappingWindowBound(
    c: Config, start: real, before: seq<Action>, window: seq<Action>, key: string)
    requires EvictionSafe(c) && Possible(c, NewLimiter, before) && InTime(start, before)
    requires Possible(c, RunOf(c, NewLimiter, before), window) && InTime(LastOf(start, before), window) && window != []
    ensures WindowWithin(c, RunOf(c, NewLimiter, before), window, key)
  {
    var l := RunOf(c, NewLimiter, before);
    RunsStaySound(c, NewLimiter, start, before);
    SoundLater(c, l, LastOf(start, before), window[0].at);
    WindowFrom(c, l, window, key);
  }

  /** The extra term is needed: with a burst of one, a call cut off by a sweep is admitted, and so is
      another one at the same instant. */
  lemma CutOffCallGoesFree(c: Config)
    requires c.burstSize == 1 && c.requestsPerMinute == 1
    ensures var now := IdleLimit + 1.0;
            var before := [Fetch(0, "k", 0.0), SweepAll(now)];
            var window := [Charge(0, now), Fetch(1, "k", now), Charge(1, now)];
            && Possible(c, NewLimiter, before) && InTime(0.0, before) && InTime(now, window)
            && Possible(c, RunOf(c, NewLimiter, before), window)
            && AdmittedIn(c, RunOf(c, NewLimiter, before), window, "k") == 2
  {
    var now := IdleLimit + 1.0;
    var l1 := After(c, NewLimiter, Fetch(0, "k", 0.0));
    assert l1 == Limiter(map["k" := 0], [Bucket(1.0, 0.0)], ["k"], map[0 := Pending("k", 0)]);
    var l2 := After(c, l1, SweepAll(now));
    assert l2.table == map[];
    FirstAction(c, NewLimiter, Fetch(0, "k", 0.0), [SweepAll(now)], "k");
    FirstAction(c, l1, SweepAll(now), [], "k");
    GainSplits(Rate(c), 0.0, 0.0);
    GainSign(Rate(c), now);
    var l3 := After(c, l2, Charge(0, now));
    assert l3.table == map[] && l3.pending == map[] && |l3.heap| == 1;
    var l4 := After(c, l3, Fetch(1, "k", now));
    assert l4.heap[1] == Bucket(1.0, now) && l4.pending[1] == Pending("k", 1);
    var window := [Charge(0, now), Fetch(1, "k", now), Charge(1, now)];
    assert window[1..] == [window[1], window[2]] && window[1..][1..] == [window[2]];
    assert InTime(now, [window[2]]) && InTime(now, window[1..]);
    assert InTime(0.0, [SweepAll(now)]) && [Fetch(0, "k", 0.0), SweepAll(now)][1..] == [SweepAll(now)];
    assert Admitted(c, l2, Charge(0, now), "k") && Admitted(c, l4, Charge(1, now), "k");
    FirstAction(c, l4, Charge(1, now), [], "k");
    FirstAction(c, l3, Fetch(1, "k", now), [Charge(1, now)], "k");
    FirstAction(c, l2, Charge(0, now), [Fetch(1, "k", now), Charge(1, now)], "k");
  }

  lemma FirstAction(c: Config, l: Limiter, a: Action, rest: seq<Action>, key: string)
    requires Enabled(l, a) && Possible(c, After(c, l, a), rest)
    ensures Possible(c, l, [a] + rest) && RunOf(c, l, [a] + rest) == RunOf(c, After(c, l, a), rest)
    ensures AdmittedIn(c, l, [a] + rest, key)
            == One(Admitted(c, l, a, key)) + AdmittedIn(c, After(c, l, a), rest, key)
    ensures rest == [] ==> [a] + rest == [a] && RunOf(c, l, [a]) == After(c, l, a)
                           && AdmittedIn(c, l, [a], key) == One(Admitted(c, l, a, key))
  {
    assert ([a] + rest)[1..] == rest;
    assert rest == [] ==> [a] + rest == [a];
  }
}
