/** Two circuit breakers fed from one configuration: reliabilityCircuitBreaker in
    pkg/transport/reliability_middleware.go, which is asked before a request and told about each
    attempt, and CircuitBreaker.Call in pkg/transport/streamable_http.go, which wraps one call.

    Instants are integers; each operation reads the clock where the source does. */
module CircuitBreakers {

  datatype Config = Config(failureThreshold: int, successThreshold: int, timeout: int)

  datatype State = Closed | Open | HalfOpen

  function AtLeastOne(n: int): nat { if n < 1 then 1 else n }

  // ---------------------------------------------------------------------------------------
  // The breaker of the reliability middleware
  // ---------------------------------------------------------------------------------------

  datatype Breaker = Breaker(state: State, failures: int, successes: int, lastError: int)

  const NewBreaker := Breaker(Closed, 0, 0, 0)

  datatype Op = Ask(at: int) | Succeed | Fail(at: int)

  function Step(c: Config, b: Breaker, op: Op): Breaker {
    match op
    case Ask(now) =>
      if b.state == Open && now - b.lastError > c.timeout then b.(state := HalfOpen, successes := 0) else b
    case Succeed =>
      var b1 := b.(failures := 0);
      if b.state == HalfOpen then
        b1.(successes := b.successes + 1, state := if b.successes + 1 >= c.successThreshold then Closed else HalfOpen)
      else b1
    case Fail(now) =>
      var b1 := b.(lastError := now, failures := b.failures + 1);
      if b.state == HalfOpen || b.failures + 1 >= c.failureThreshold then b1.(state := Open) else b1
  }

  /** Asking is answered yes unless the breaker stays open. */
  function Allowed(c: Config, b: Breaker, now: int): bool {
    Step(c, b, Ask(now)).state != Open
  }

  class ReliabilityCircuitBreaker {
    const config: Config
    var state: State
    var failures: int
    var successes: int
    var lastError: int

    function View(): Breaker
      reads this
    {
      Breaker(state, failures, successes, lastError)
    }

    constructor (config: Config)
      ensures this.config == config && View() == NewBreaker
    {
      this.config := config;
      state, failures, successes, lastError := Closed, 0, 0, 0;
    }

    method CanMakeCall(now: int) returns (allowed: bool)
      modifies this
      ensures View() == Step(config, old(View()), Ask(now))
      ensures allowed == Allowed(config, old(View()), now)
    {
      match state
      case Closed => return true;
      case Open =>
        if now - lastError > config.timeout {
          state := HalfOpen;
          successes := 0;
          return true;
        }
        return false;
      case HalfOpen => return true;
    }

    method RecordSuccess()
      modifies this
      ensures View() == Step(config, old(View()), Succeed)
    {
      failures := 0;
      if state == HalfOpen {
        successes := successes + 1;
        if successes >= config.successThreshold {
          state := Closed;
        }
      }
    }

    method RecordFailure(now: int)
      modifies this
      ensures View() == Step(config, old(View()), Fail(now))
    {
      lastError := now;
      failures := failures + 1;
      if state == HalfOpen {
        state := Open;
        return;
      }
      if failures >= config.failureThreshold {
        state := Open;
      }
    }
  }

  // ---------------------------------------------------------------------------------------
  // Its behaviour under any interleaving of operations, as a law of the history alone
  // ---------------------------------------------------------------------------------------

  function After(c: Config, ops: seq<Op>): Breaker {
    if ops == [] then NewBreaker else Step(c, After(c, ops[..|ops| - 1]), ops[|ops| - 1])
  }

  /** Failures since the last success. */
  function FailureRun(ops: seq<Op>): nat {
    if ops == [] then 0
    else match ops[|ops| - 1]
      case Ask(_) => FailureRun(ops[..|ops| - 1])
      case Succeed => 0
      case Fail(_) => FailureRun(ops[..|ops| - 1]) + 1
  }

  function LastFailure(ops: seq<Op>): int {
    if ops == [] then 0
    else if ops[|ops| - 1].Fail? then ops[|ops| - 1].at
    else LastFailure(ops[..|ops| - 1])
  }

  function SuccessCount(ops: seq<Op>): nat {
    if ops == [] then 0
    else SuccessCount(ops[..|ops| - 1]) + (if ops[|ops| - 1].Succeed? then 1 else 0)
  }

  predicate NoFailure(ops: seq<Op>) { forall i :: 0 <= i < |ops| ==> !ops[i].Fail? }

  /** The operations after the latest one that turned an open breaker half-open. */
  function SinceProbe(c: Config, ops: seq<Op>): seq<Op> {
    if ops == [] then []
    else
      var before := ops[..|ops| - 1];
      if After(c, before).state == Open && After(c, ops).state == HalfOpen then []
      else SinceProbe(c, before) + [ops[|ops| - 1]]
  }

  /** What the fields mean. */
  ghost predicate Explained(c: Config, ops: seq<Op>) {
    var b := After(c, ops);
    && b.failures == FailureRun(ops)
    && b.lastError == LastFailure(ops)
    && (b.state == Closed ==> FailureRun(ops) < AtLeastOne(c.failureThreshold))
    && (b.state == HalfOpen ==>
          && b.successes == SuccessCount(SinceProbe(c, ops)) < AtLeastOne(c.successThreshold)
          && NoFailure(SinceProbe(c, ops)))
  }

  lemma {:induction false} FieldsExplained(c: Config, ops: seq<Op>)
    ensures Explained(c, ops)
  {
    if ops != [] {
      var before, op := ops[..|ops| - 1], ops[|ops| - 1];
      FieldsExplained(c, before);
      var since := SinceProbe(c, before) + [op];
      assert since[..|since| - 1] == SinceProbe(c, before);
    }
  }

  /** The next state, from the history alone.
      - Closed is left, for Open, by the failure that completes a run of FailureThreshold
        failures with no success in between.
      - Open is left, for HalfOpen, by asking more than the timeout after the last failure.
      - HalfOpen is left for Open by any failure, and for Closed by the success that completes
        SuccessThreshold successes with no failure since the probe began.
      (A threshold below one counts as one.) */
  lemma {:induction false} TransitionLaw(c: Config, ops: seq<Op>, op: Op)
    ensures var from, to := After(c, ops).state, After(c, ops + [op]).state;
            var probe := SinceProbe(c, ops) + [op];
            match from
            case Closed =>
              to == if op.Fail? && FailureRun(ops + [op]) == AtLeastOne(c.failureThreshold) then Open else Closed
            case Open =>
              to == if op.Ask? && op.at - LastFailure(ops) > c.timeout then HalfOpen else Open
            case HalfOpen =>
              && (to == Open <==> op.Fail?)
              && (to == Closed <==> op.Succeed? && SuccessCount(probe) == AtLeastOne(c.successThreshold))
              && (to == Closed ==> NoFailure(probe))
  {
    FieldsExplained(c, ops);
    FieldsExplained(c, ops + [op]);
    assert (ops + [op])[..|ops|] == ops;
    var probe := SinceProbe(c, ops) + [op];
    assert probe[..|probe| - 1] == SinceProbe(c, ops);
  }

  // ---------------------------------------------------------------------------------------
  // The breaker around one call
  // ---------------------------------------------------------------------------------------

  datatype CallBreaker = CallBreaker(
    state: State, failureCount: int, lastFailureTime: int, lastSuccessTime: int, halfOpenCalls: int)

  const NewCallBreaker := CallBreaker(Closed, 0, 0, 0, 0)

  /** One call: when it is tried, how it would end, and when. */
  datatype Attempt = Attempt(start: int, succeeds: bool, finish: int)

  datatype Verdict = Ran(succeeded: bool) | CircuitIsOpen | HalfOpenLimitExceeded

  function CallClosed(c: Config, b: CallBreaker, a: Attempt): (CallBreaker, Verdict) {
    if a.succeeds then (b.(lastSuccessTime := a.finish, failureCount := 0), Ran(true))
    else
      var b1 := b.(failureCount := b.failureCount + 1, lastFailureTime := a.finish);
      (if b1.failureCount >= c.failureThreshold then b1.(state := Open) else b1, Ran(false))
  }

  function CallHalfOpen(c: Config, b: CallBreaker, a: Attempt): (CallBreaker, Verdict) {
    if b.halfOpenCalls >= c.successThreshold then (b, HalfOpenLimitExceeded)
    else
      var b1 := b.(halfOpenCalls := b.halfOpenCalls + 1);
      if a.succeeds then
        var b2 := b1.(lastSuccessTime := a.finish, failureCount := 0);
        (if b2.halfOpenCalls >= c.successThreshold then b2.(state := Closed) else b2, Ran(true))
      else
        (b1.(failureCount := b.failureCount + 1, lastFailureTime := a.finish, state := Open), Ran(false))
  }

  function CallOpen(c: Config, b: CallBreaker, a: Attempt): (CallBreaker, Verdict) {
    if a.start - b.lastFailureTime > c.timeout then CallHalfOpen(c, b.(state := HalfOpen, halfOpenCalls := 0), a)
    else (b, CircuitIsOpen)
  }

  function Call(c: Config, b: CallBreaker, a: Attempt): (CallBreaker, Verdict) {
    match b.state
    case Closed => CallClosed(c, b, a)
    case Open => CallOpen(c, b, a)
    case HalfOpen => CallHalfOpen(c, b, a)
  }

  class CircuitBreaker {
    const config: Config
    var state: State
    var failureCount: int
    var lastFailureTime: int
    var lastSuccessTime: int
    var halfOpenCalls: int

    function View(): CallBreaker
      reads this
    {
      CallBreaker(state, failureCount, lastFailureTime, lastSuccessTime, halfOpenCalls)
    }

    /** The configuration maps the failure threshold, the timeout and, as the number of
        half-open calls, the success threshold. */
    constructor (config: Config)
      ensures this.config == config && View() == NewCallBreaker
    {
      this.config := config;
      state, failureCount, lastFailureTime, lastSuccessTime, halfOpenCalls := Closed, 0, 0, 0, 0;
    }

    method CallFn(a: Attempt) returns (verdict: Verdict)
      modifies this
      ensures (View(), verdict) == Call(config, old(View()), a)
    {
      match state
      case Closed =>
        if !a.succeeds {
          RecordFailure(a.finish);
          if failureCount >= config.failureThreshold {
            state := Open;
            lastFailureTime := a.finish;
          }
          return Ran(false);
        }
        RecordSuccess(a.finish);
        return Ran(true);
      case Open =>
        if a.start - lastFailureTime > config.timeout {
          state := HalfOpen;
          halfOpenCalls := 0;
          verdict := CallWhenHalfOpen(a);
          return;
        }
        return CircuitIsOpen;
      case HalfOpen =>
        verdict := CallWhenHalfOpen(a);
    }

    method CallWhenHalfOpen(a: Attempt) returns (verdict: Verdict)
      requires state == HalfOpen
      modifies this
      ensures (View(), verdict) == CallHalfOpen(config, old(View()), a)
    {
      if halfOpenCalls >= config.successThreshold {
        return HalfOpenLimitExceeded;
      }
      halfOpenCalls := halfOpenCalls + 1;
      if !a.succeeds {
        RecordFailure(a.finish);
        state := Open;
        lastFailureTime := a.finish;
        return Ran(false);
      }
      RecordSuccess(a.finish);
      if halfOpenCalls >= config.successThreshold {
        state := Closed;
        failureCount := 0;
      }
      return Ran(true);
    }

    method RecordSuccess(now: int)
      modifies this
      ensures View() == old(View()).(lastSuccessTime := now, failureCount := 0)
    {
      lastSuccessTime := now;
      failureCount := 0;
    }

    method RecordFailure(now: int)
      modifies this
      ensures View() == old(View()).(lastFailureTime := now, failureCount := old(failureCount) + 1)
    {
      failureCount := failureCount + 1;
      lastFailureTime := now;
    }
  }

  // ---------------------------------------------------------------------------------------
  // Driven one call at a time, the two are the same breaker
  // ---------------------------------------------------------------------------------------

  /** The asking breaker around one call: ask, and if allowed run the call and report it. */
  function AskThenReport(c: Config, b: Breaker, a: Attempt): (Breaker, bool) {
    var b1 := Step(c, b, Ask(a.start));
    if !Allowed(c, b, a.start) then (b1, false)
    else (Step(c, b1, if a.succeeds then Succeed else Fail(a.finish)), true)
  }

  ghost predicate Agree(c: Config, b: Breaker, d: CallBreaker, attempts: seq<Attempt>)
    decreases |attempts|
  {
    b.state == d.state &&
    (attempts != [] ==>
       var (b1, admitted) := AskThenReport(c, b, attempts[0]);
       var (d1, verdict) := Call(c, d, attempts[0]);
       admitted == verdict.Ran? && verdict != HalfOpenLimitExceeded && Agree(c, b1, d1, attempts[1..]))
  }

  predicate Chronological(start: int, attempts: seq<Attempt>)
    decreases |attempts|
  {
    attempts == []
    || (start <= attempts[0].start <= attempts[0].finish && Chronological(attempts[0].finish, attempts[1..]))
  }

  ghost predicate Matched(c: Config, b: Breaker, d: CallBreaker) {
    && b.state == d.state && b.failures == d.failureCount && b.lastError == d.lastFailureTime
    && (b.state == HalfOpen ==> b.successes == d.halfOpenCalls < c.successThreshold)
  }

  lemma {:induction false} MatchedAgree(c: Config, b: Breaker, d: CallBreaker, attempts: seq<Attempt>)
    requires c.successThreshold >= 1 && Matched(c, b, d)
    ensures Agree(c, b, d, attempts)
    decreases |attempts|
  {
    if attempts != [] {
      MatchedAgree(c, AskThenReport(c, b, attempts[0]).0, Call(c, d, attempts[0]).0, attempts[1..]);
    }
  }

  /** With a success threshold below one, a half-open call breaker refuses every call and never
      leaves that state. */
  lemma {:induction false} StuckHalfOpen(c: Config, d: CallBreaker, attempts: seq<Attempt>)
    requires d.state == HalfOpen && d.halfOpenCalls >= c.successThreshold
    ensures CallAll(c, d, attempts) == d
    ensures forall i :: 0 <= i < |attempts| ==>
              Call(c, CallAll(c, d, attempts[..i]), attempts[i]).1 == HalfOpenLimitExceeded
    decreases |attempts|
  {
    if attempts != [] {
      StuckHalfOpen(c, d, attempts[1..]);
      forall i | 0 <= i < |attempts|
        ensures Call(c, CallAll(c, d, attempts[..i]), attempts[i]).1 == HalfOpenLimitExceeded
      {
        if i > 0 {
          assert attempts[..i][1..] == attempts[1..][..i - 1];
          assert attempts[i] == attempts[1..][i - 1];
        }
      }
    }
  }

  function CallAll(c: Config, d: CallBreaker, attempts: seq<Attempt>): CallBreaker
    decreases |attempts|
  {
    if attempts == [] then d else CallAll(c, Call(c, d, attempts[0]).0, attempts[1..])
  }

  function SucceedTimes(c: Config, b: Breaker, n: nat): Breaker {
    if n == 0 then b else Step(c, SucceedTimes(c, b, n - 1), Succeed)
  }

  /** The asking breaker leaves the half-open state after as many successes as are missing, but at
      least one, and stays half-open before: also a success threshold below one lets it recover. */
  lemma {:induction false} AskingBreakerRecovers(c: Config, b: Breaker, n: nat)
    requires b.state == HalfOpen
    ensures var after := SucceedTimes(c, b, n);
            if n > 0 && b.successes + n >= c.successThreshold then after.state == Closed
            else after.state == HalfOpen && after.successes == b.successes + n
  {
    if n > 0 {
      AskingBreakerRecovers(c, b, n - 1);
    }
  }

  function Failures(n: nat): seq<Attempt> {
    if n == 0 then [] else [Attempt(0, false, 0)] + Failures(n - 1)
  }

  /** Enough failures open both breakers; the next allowed call tells them apart. */
  lemma {:induction false} FailuresThenDisagree(c: Config, b: Breaker, d: CallBreaker, n: nat, late: Attempt)
    requires c.successThreshold < 1 && Matched(c, b, d) && late.start > c.timeout
    requires n > 0 ==> b.state == Closed && b.failures >= 0 && b.failures == AtLeastOne(c.failureThreshold) - n
    requires n == 0 ==> b.state == Open && b.lastError == 0
    ensures !Agree(c, b, d, Failures(n) + [late])
    decreases n
  {
    var attempts := Failures(n) + [late];
    if n > 0 {
      assert attempts[1..] == Failures(n - 1) + [late];
      FailuresThenDisagree(c, AskThenReport(c, b, attempts[0]).0, Call(c, d, attempts[0]).0, n - 1, late);
    }
  }

  lemma {:induction false} FailuresChronological(n: nat, late: Attempt)
    requires 0 <= late.start <= late.finish
    ensures Chronological(0, Failures(n) + [late])
  {
    if n > 0 {
      assert (Failures(n) + [late])[1..] == Failures(n - 1) + [late];
      FailuresChronological(n - 1, late);
    }
  }

  /** The two admit the same calls and are in the same state forever, on every timed sequence of
      outcomes, exactly when the success threshold is at least one; the half-open limit is then
      never exceeded. */
  lemma {:induction false} BreakersAgreeIff(c: Config)
    ensures (forall attempts :: Chronological(0, attempts) ==> Agree(c, NewBreaker, NewCallBreaker, attempts))
            <==> c.successThreshold >= 1
  {
    if c.successThreshold >= 1 {
      forall attempts | Chronological(0, attempts)
        ensures Agree(c, NewBreaker, NewCallBreaker, attempts)
      {
        MatchedAgree(c, NewBreaker, NewCallBreaker, attempts);
      }
    } else {
      var n := AtLeastOne(c.failureThreshold);
      var at := AtLeastOne(c.timeout + 1);
      FailuresThenDisagree(c, NewBreaker, NewCallBreaker, n, Attempt(at, true, at));
      FailuresChronological(n, Attempt(at, true, at));
    }
  }

  // ---------------------------------------------------------------------------------------
  // The retry loop around the asking breaker
  // ---------------------------------------------------------------------------------------

  /** What happens to one attempt: the context is found cancelled before it, or it ends. */
  datatype Try = Cancelled | Replied | RetryableError(at: int) | FinalError(at: int)

  datatype SendOutcome =
    | Sent | Refused | CancelledWith(attempts: nat) | Rejected(attempts: nat) | Exhausted(attempts: nat)

  /** Attempts number k and following, as told to the breaker; the answer counts attempts made. */
  function SendFrom(c: Config, b: Breaker, tries: seq<Try>, k: nat): (Breaker, SendOutcome)
    requires k <= |tries|
    decreases |tries| - k
  {
    if k == |tries| then (b, Exhausted(k))
    else match tries[k]
      case Cancelled => (b, CancelledWith(k))
      case Replied => (Step(c, b, Succeed), Sent)
      case FinalError(at) => (Step(c, b, Fail(at)), Rejected(k + 1))
      case RetryableError(at) => SendFrom(c, Step(c, b, Fail(at)), tries, k + 1)
  }

  class ReliabilityTransport {
    const maxRetries: int
    const breaker: ReliabilityCircuitBreaker

    constructor (maxRetries: int, breaker: ReliabilityCircuitBreaker)
      ensures this.maxRetries == maxRetries && this.breaker == breaker
    {
      this.maxRetries, this.breaker := maxRetries, breaker;
    }

    /** "tries" foretells the attempts there may be; the breaker is asked once, before the first. */
    method SendRequest(now: int, tries: seq<Try>) returns (outcome: SendOutcome)
      requires |tries| == if maxRetries < 0 then 0 else maxRetries + 1
      modifies breaker
      ensures var asked := Step(breaker.config, old(breaker.View()), Ask(now));
              if Allowed(breaker.config, old(breaker.View()), now)
              then (breaker.View(), outcome) == SendFrom(breaker.config, asked, tries, 0)
              else breaker.View() == asked && outcome == Refused
    {
      var allowed := breaker.CanMakeCall(now);
      if !allowed {
        return Refused;
      }
      ghost var asked := breaker.View();
      var maxAttempts, attempt := maxRetries + 1, 0;
      while attempt < maxAttempts
        invariant 0 <= attempt <= |tries|
        invariant SendFrom(breaker.config, asked, tries, 0) == SendFrom(breaker.config, breaker.View(), tries, attempt)
      {
        match tries[attempt]
        case Cancelled =>
          return CancelledWith(attempt);
        case Replied =>
          breaker.RecordSuccess();
          return Sent;
        case FinalError(at) =>
          breaker.RecordFailure(at);
          return Rejected(attempt + 1);
        case RetryableError(at) =>
          breaker.RecordFailure(at);
          attempt := attempt + 1;
      }
      return Exhausted(attempt);
    }
  }

  /** A request that keeps failing reports every attempt: it alone opens a closed breaker once
      its attempts complete the failure run, and opening does not stop the remaining attempts. */
  lemma {:induction false} FailingRequestReportsEveryAttempt(c: Config, b: Breaker, tries: seq<Try>, k: nat)
    requires k <= |tries| && forall i :: 0 <= i < |tries| ==> tries[i].RetryableError?
    ensures var (b1, outcome) := SendFrom(c, b, tries, k);
            && outcome == Exhausted(|tries|)
            && b1.failures == b.failures + |tries| - k
            && (k < |tries| ==> (b1.state == Open <==>
                  b.state != Closed || b.failures + |tries| - k >= c.failureThreshold))
    decreases |tries| - k
  {
    if k < |tries| {
      FailingRequestReportsEveryAttempt(c, Step(c, b, Fail(tries[k].at)), tries, k + 1);
    }
  }

  predicate Failing(tries: seq<Try>, m: nat) {
    m <= |tries| && forall i :: 0 <= i < m ==> tries[i].RetryableError?
  }

  /** The first m attempts end in errors worth retrying, and the next one, if there is one, does not. */
  predicate StopsAt(tries: seq<Try>, m: nat) {
    Failing(tries, m) && (m < |tries| ==> !tries[m].RetryableError?)
  }

  lemma {:induction false} EveryRequestStops(tries: seq<Try>, k: nat)
    requires Failing(tries, k)
    ensures exists m :: StopsAt(tries, m)
    decreases |tries| - k
  {
    if k < |tries| && tries[k].RetryableError? {
      EveryRequestStops(tries, k + 1);
    } else {
      assert StopsAt(tries, k);
    }
  }

  /** The reports of the first m attempts, all of them failures. */
  function FailuresReported(tries: seq<Try>, m: nat): (ops: seq<Op>)
    requires Failing(tries, m)
    ensures |ops| == m && forall i :: 0 <= i < m ==> ops[i] == Fail(tries[i].at)
  {
    if m == 0 then [] else FailuresReported(tries, m - 1) + [Fail(tries[m - 1].at)]
  }

  lemma AfterOneMore(c: Config, ops: seq<Op>, op: Op)
    ensures After(c, ops + [op]) == Step(c, After(c, ops), op)
  {
    assert (ops + [op])[..|ops|] == ops;
  }

  lemma {:induction false} SendFromGoesOn(c: Config, ops: seq<Op>, tries: seq<Try>, m: nat)
    requires Failing(tries, m)
    ensures SendFrom(c, After(c, ops), tries, 0) == SendFrom(c, After(c, ops + FailuresReported(tries, m)), tries, m)
  {
    if m == 0 {
      assert ops + [] == ops;
    } else {
      var before, failure := ops + FailuresReported(tries, m - 1), Fail(tries[m - 1].at);
      SendFromGoesOn(c, ops, tries, m - 1);
      AfterOneMore(c, before, failure);
      assert ops + FailuresReported(tries, m) == before + [failure];
    }
  }

  /** The first attempt that does not end in an error worth retrying ends the request, and the attempts
      before it are reported as failures.  A reply is then reported as a success, a final error as one
      more failure, and a cancellation not at all; without such an attempt the retries are exhausted. */
  lemma SendStopsAt(c: Config, history: seq<Op>, tries: seq<Try>, m: nat)
    requires StopsAt(tries, m)
    ensures var sent, failed := SendFrom(c, After(c, history), tries, 0), history + FailuresReported(tries, m);
            && (m == |tries| ==> sent == (After(c, failed), Exhausted(m)))
            && (m < |tries| && tries[m].Cancelled? ==> sent == (After(c, failed), CancelledWith(m)))
            && (m < |tries| && tries[m].Replied? ==> sent == (After(c, failed + [Succeed]), Sent))
            && (m < |tries| && tries[m].FinalError? ==>
                  sent == (After(c, failed + [Fail(tries[m].at)]), Rejected(m + 1)))
  {
    SendFromGoesOn(c, history, tries, m);
    var failed := history + FailuresReported(tries, m);
    if m < |tries| && tries[m].Replied? {
      AfterOneMore(c, failed, Succeed);
    } else if m < |tries| && tries[m].FinalError? {
      AfterOneMore(c, failed, Fail(tries[m].at));
    }
  }
}
