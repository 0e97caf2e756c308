/** The bulkhead worker pool: examples/error-recovery/main.go.

    Callers and workers are goroutines, so the model is a state machine: each action below is one
    channel operation or one atomic counter update of one goroutine, and actions interleave in
    any order.  Requests are numbered as they arrive; workers are numbered from zero. */
module BulkheadPool {

  /** Zero selects the default; the source panics on negative sizes. */
  datatype Config = Config(maxConcurrentRequests: nat, queueSize: nat)

  function Workers(c: Config): nat { if c.maxConcurrentRequests == 0 then 10 else c.maxConcurrentRequests }

  function Capacity(c: Config): nat { if c.queueSize == 0 then 100 else c.queueSize }

  /** Where a call of Execute is: it has put its request in the queue, has counted it, and then
      waits and returns; or it found the queue full, and then counts that. */
  datatype Caller = Enqueued | Waiting | Returned | Rejecting | Rejected

  /** Where a worker is with the request it took: each phase but Running ends with the counter
      update or send that the next one is named after. */
  datatype Worker =
    | Idle
    | Took(request: nat)
    | Uncounted(request: nat)
    | Running(request: nat)
    | Ended(request: nat)
    | Inactive(request: nat)
    | Reporting(request: nat)
    | Stopped

  datatype State = State(
    callers: seq<Caller>,
    queue: seq<nat>,
    workers: seq<Worker>,
    filled: set<nat>,       // requests whose response channel holds a response
    answered: set<nat>,     // requests whose worker is done with them
    started: multiset<nat>, // how often each request's operation was started
    queuedRequests: int,
    activeRequests: int,
    rejectedRequests: int,
    completedRequests: int,
    stopping: bool)

  function Initial(c: Config): State {
    State([], [], seq(Workers(c), _ => Idle), {}, {}, multiset{}, 0, 0, 0, 0, false)
  }

  datatype Action =
    | Submit
    | CountQueued(r: nat)
    | CountRejected(r: nat)
    | Receive(r: nat)
    | GiveUp(r: nat)
    | Take(w: nat)
    | CountTaken(w: nat)
    | CountActive(w: nat)
    | Finish(w: nat)
    | CountInactive(w: nat)
    | CountCompleted(w: nat)
    | Send(w: nat)
    | Exit(w: nat)
    | Shutdown

  predicate CallerIs(s: State, r: nat, phase: Caller) {
    r < |s.callers| && s.callers[r] == phase
  }

  predicate Enabled(s: State, a: Action) {
    match a
    case Submit => true
    case CountQueued(r) => CallerIs(s, r, Enqueued)
    case CountRejected(r) => CallerIs(s, r, Rejecting)
    case Receive(r) => CallerIs(s, r, Waiting) && r in s.filled
    case GiveUp(r) => CallerIs(s, r, Waiting)
    case Take(w) => w < |s.workers| && s.workers[w] == Idle && s.queue != []
    case CountTaken(w) => w < |s.workers| && s.workers[w].Took?
    case CountActive(w) => w < |s.workers| && s.workers[w].Uncounted?
    case Finish(w) => w < |s.workers| && s.workers[w].Running?
    case CountInactive(w) => w < |s.workers| && s.workers[w].Ended?
    case CountCompleted(w) => w < |s.workers| && s.workers[w].Inactive?
    case Send(w) => w < |s.workers| && s.workers[w].Reporting?
    case Exit(w) => w < |s.workers| && s.workers[w] == Idle && s.stopping
    case Shutdown => true
  }

  /** A caller enqueues unless the queue is full; a worker's send is dropped if the response
      channel is full. */
  function Next(c: Config, s: State, a: Action): State
    requires Enabled(s, a)
  {
    match a
    case Submit =>
      if |s.queue| < Capacity(c)
      then s.(callers := s.callers + [Enqueued], queue := s.queue + [|s.callers|])
      else s.(callers := s.callers + [Rejecting])
    case CountQueued(r) => s.(callers := s.callers[r := Waiting], queuedRequests := s.queuedRequests + 1)
    case CountRejected(r) => s.(callers := s.callers[r := Rejected], rejectedRequests := s.rejectedRequests + 1)
    case Receive(r) => s.(callers := s.callers[r := Returned], filled := s.filled - {r})
    case GiveUp(r) => s.(callers := s.callers[r := Returned])
    case Take(w) => s.(workers := s.workers[w := Took(s.queue[0])], queue := s.queue[1..])
    case CountTaken(w) =>
      s.(workers := s.workers[w := Uncounted(s.workers[w].request)], queuedRequests := s.queuedRequests - 1)
    case CountActive(w) =>
      var r := s.workers[w].request;
      s.(workers := s.workers[w := Running(r)], activeRequests := s.activeRequests + 1,
         started := s.started + multiset{r})
    case Finish(w) => s.(workers := s.workers[w := Ended(s.workers[w].request)])
    case CountInactive(w) =>
      s.(workers := s.workers[w := Inactive(s.workers[w].request)], activeRequests := s.activeRequests - 1)
    case CountCompleted(w) =>
      s.(workers := s.workers[w := Reporting(s.workers[w].request)], completedRequests := s.completedRequests + 1)
    case Send(w) =>
      var r := s.workers[w].request;
      s.(workers := s.workers[w := Idle], answered := s.answered + {r},
         filled := if r in s.filled then s.filled else s.filled + {r})
    case Exit(w) => s.(workers := s.workers[w := Stopped])
    case Shutdown => s.(stopping := true)
  }

  // ---------------------------------------------------------------------------------------
  // Counting goroutines by phase
  // ---------------------------------------------------------------------------------------

  function Count<T>(xs: seq<T>, p: T -> bool): nat {
    if xs == [] then 0 else Count(xs[..|xs| - 1], p) + (if p(xs[|xs| - 1]) then 1 else 0)
  }

  lemma {:induction false} CountUpdate<T>(xs: seq<T>, p: T -> bool, i: nat, x: T)
    requires i < |xs|
    ensures Count(xs[i := x], p) == Count(xs, p) - (if p(xs[i]) then 1 else 0) + (if p(x) then 1 else 0)
  {
    var ys, n := xs[i := x], |xs| - 1;
    if i == n {
      assert ys[..n] == xs[..n];
    } else {
      assert ys[..n] == xs[..n][i := x];
      CountUpdate(xs[..n], p, i, x);
    }
  }

  lemma CountAppend<T>(xs: seq<T>, p: T -> bool, x: T)
    ensures Count(xs + [x], p) == Count(xs, p) + (if p(x) then 1 else 0)
  {
    assert (xs + [x])[..|xs|] == xs;
  }

  lemma {:induction false} CountDropFirst<T>(xs: seq<T>, p: T -> bool)
    requires xs != []
    ensures Count(xs, p) == Count(xs[1..], p) + (if p(xs[0]) then 1 else 0)
  {
    if |xs| > 1 {
      var n := |xs| - 1;
      CountDropFirst(xs[..n], p);
      assert xs[1..][..n - 1] == xs[..n][1..];
    }
  }

  lemma {:induction false} CountBound<T>(xs: seq<T>, p: T -> bool)
    ensures Count(xs, p) <= |xs|
    ensures (exists i :: 0 <= i < |xs| && p(xs[i])) ==> Count(xs, p) > 0
    ensures (forall i :: 0 <= i < |xs| ==> !p(xs[i])) ==> Count(xs, p) == 0
  {
    if xs != [] {
      var n := |xs| - 1;
      CountBound(xs[..n], p);
      assert forall i :: 0 <= i < n ==> xs[..n][i] == xs[i];
    }
  }

  predicate IsEnqueued(c: Caller) { c == Enqueued }

  predicate IsTook(w: Worker) { w.Took? }

  predicate IsActive(w: Worker) { w.Running? || w.Ended? }

  predicate IsReporting(w: Worker) { w.Reporting? }

  predicate IsRejected(c: Caller) { c == Rejected }

  predicate HoldsRequest(w: Worker, r: nat) { !w.Idle? && !w.Stopped? && w.request == r }

  predicate HasStarted(w: Worker, r: nat) {
    HoldsRequest(w, r) && (w.Running? || w.Ended? || w.Inactive? || w.Reporting?)
  }

  function Holding(r: nat): Worker -> bool { w => HoldsRequest(w, r) }

  function Started(r: nat): Worker -> bool { w => HasStarted(w, r) }

  function Is(r: nat): nat -> bool { q => q == r }

  // ---------------------------------------------------------------------------------------
  // The invariant
  // ---------------------------------------------------------------------------------------

  /** How many places a request is in: the queue, the hands of a worker, or past its answer. */
  function Places(s: State, r: nat): nat {
    Count(s.queue, Is(r)) + Count(s.workers, Holding(r)) + (if r in s.answered then 1 else 0)
  }

  predicate Accepted(s: State, r: nat) {
    r < |s.callers| && s.callers[r] != Rejecting && s.callers[r] != Rejected
  }

  /** The counters against what they are meant to count, at any moment. */
  ghost predicate CountersRight(c: Config, s: State) {
    && |s.workers| == Workers(c) && |s.queue| <= Capacity(c)
    && s.queuedRequests == |s.queue| + Count(s.workers, IsTook) - Count(s.callers, IsEnqueued)
    && s.activeRequests == Count(s.workers, IsActive)
    && s.completedRequests == |s.answered| + Count(s.workers, IsReporting)
    && s.rejectedRequests == Count(s.callers, IsRejected)
  }

  /** Every accepted request is in exactly one place, every other number in none; its operation
      was started once if a worker has come that far, and not at all otherwise. */
  ghost predicate RequestRight(s: State, r: nat) {
    && Places(s, r) == (if Accepted(s, r) then 1 else 0)
    && s.started[r] == Count(s.workers, Started(r)) + (if r in s.answered then 1 else 0)
    && (r in s.filled ==> r in s.answered)
  }

  ghost predicate Inv(c: Config, s: State) {
    CountersRight(c, s) && forall r: nat :: RequestRight(s, r)
  }

  lemma {:induction false} NoIdleWorkerCounts(n: nat, p: Worker -> bool)
    requires !p(Idle)
    ensures Count(seq(n, _ => Idle), p) == 0
  {
    CountBound(seq(n, _ => Idle), p);
  }

  lemma InitialInv(c: Config)
    ensures Inv(c, Initial(c))
  {
    NoIdleWorkerCounts(Workers(c), IsTook);
    NoIdleWorkerCounts(Workers(c), IsActive);
    NoIdleWorkerCounts(Workers(c), IsReporting);
    forall r: nat
      ensures RequestRight(Initial(c), r)
    {
      NoIdleWorkerCounts(Workers(c), Holding(r));
      NoIdleWorkerCounts(Workers(c), Started(r));
    }
  }

  /** A worker's request has been accepted and not answered, so its response channel is empty:
      the drop branch of the send is never taken. */
  lemma HeldMeansUnanswered(c: Config, s: State, w: nat)
    requires Inv(c, s) && w < |s.workers| && !s.workers[w].Idle? && !s.workers[w].Stopped?
    ensures var r := s.workers[w].request; Accepted(s, r) && r !in s.answered && r !in s.filled
  {
    var r := s.workers[w].request;
    assert RequestRight(s, r) && Holding(r)(s.workers[w]);
    CountBound(s.workers, Holding(r));
  }

  predicate MovesWorker(a: Action) {
    || a.Take? || a.CountTaken? || a.CountActive? || a.Finish?
    || a.CountInactive? || a.CountCompleted? || a.Send? || a.Exit?
  }

  lemma WorkerMoveKeepsCounters(c: Config, s: State, a: Action)
    requires Inv(c, s) && Enabled(s, a) && MovesWorker(a)
    ensures CountersRight(c, Next(c, s, a))
  {
    var w, s' := a.w, Next(c, s, a);
    var x := s'.workers[w];
    assert s'.workers == s.workers[w := x];
    CountUpdate(s.workers, IsTook, w, x);
    CountUpdate(s.workers, IsActive, w, x);
    CountUpdate(s.workers, IsReporting, w, x);
    if a.Send? {
      HeldMeansUnanswered(c, s, w);
    }
  }

  lemma CallersAppend(callers: seq<Caller>, x: Caller)
    ensures Count(callers + [x], IsEnqueued) == Count(callers, IsEnqueued) + (if x == Enqueued then 1 else 0)
    ensures Count(callers + [x], IsRejected) == Count(callers, IsRejected) + (if x == Rejected then 1 else 0)
  {
    CountAppend(callers, IsEnqueued, x);
    CountAppend(callers, IsRejected, x);
  }

  lemma CallersUpdate(callers: seq<Caller>, r: nat, x: Caller)
    requires r < |callers|
    ensures Count(callers[r := x], IsEnqueued)
            == Count(callers, IsEnqueued) - (if callers[r] == Enqueued then 1 else 0) + (if x == Enqueued then 1 else 0)
    ensures Count(callers[r := x], IsRejected)
            == Count(callers, IsRejected) - (if callers[r] == Rejected then 1 else 0) + (if x == Rejected then 1 else 0)
  {
    CountUpdate(callers, IsEnqueued, r, x);
    CountUpdate(callers, IsRejected, r, x);
  }

  lemma SubmitKeepsCounters(c: Config, s: State)
    requires CountersRight(c, s)
    ensures CountersRight(c, Next(c, s, Submit))
  {
    CallersAppend(s.callers, if |s.queue| < Capacity(c) then Enqueued else Rejecting);
  }

  lemma CallerMoveKeepsCounters(c: Config, s: State, a: Action)
    requires CountersRight(c, s) && Enabled(s, a) && !MovesWorker(a)
    ensures CountersRight(c, Next(c, s, a))
  {
    match a {
      case Submit => SubmitKeepsCounters(c, s);
      case CountQueued(r) => CallersUpdate(s.callers, r, Waiting);
      case CountRejected(r) => CallersUpdate(s.callers, r, Rejected);
      case Receive(r) => CallersUpdate(s.callers, r, Returned);
      case GiveUp(r) => CallersUpdate(s.callers, r, Returned);
      case Shutdown =>
    }
  }

  /** What a worker's move does to the places and starts of request r. */
  lemma WorkerMoves(s: State, w: nat, x: Worker, r: nat)
    requires w < |s.workers|
    ensures var y, workers := s.workers[w], s.workers[w := x];
            && Count(workers, Holding(r)) == Count(s.workers, Holding(r))
               - (if HoldsRequest(y, r) then 1 else 0) + (if HoldsRequest(x, r) then 1 else 0)
            && Count(workers, Started(r)) == Count(s.workers, Started(r))
               - (if HasStarted(y, r) then 1 else 0) + (if HasStarted(x, r) then 1 else 0)
  {
    CountUpdate(s.workers, Holding(r), w, x);
    CountUpdate(s.workers, Started(r), w, x);
  }

  lemma TakeKeepsRequest(c: Config, s: State, w: nat, r: nat)
    requires Enabled(s, Take(w)) && RequestRight(s, r)
    ensures RequestRight(Next(c, s, Take(w)), r)
  {
    WorkerMoves(s, w, Took(s.queue[0]), r);
    CountDropFirst(s.queue, Is(r));
  }

  lemma SendKeepsRequest(c: Config, s: State, w: nat, r: nat)
    requires Inv(c, s) && Enabled(s, Send(w))
    ensures RequestRight(Next(c, s, Send(w)), r)
  {
    WorkerMoves(s, w, Idle, r);
    HeldMeansUnanswered(c, s, w);
    assert RequestRight(s, r);
  }

  lemma WorkerMoveKeepsRequest(c: Config, s: State, a: Action, r: nat)
    requires Inv(c, s) && Enabled(s, a) && MovesWorker(a)
    ensures RequestRight(Next(c, s, a), r)
  {
    assert RequestRight(s, r);
    if a.Take? {
      TakeKeepsRequest(c, s, a.w, r);
    } else if a.Send? {
      SendKeepsRequest(c, s, a.w, r);
    } else {
      WorkerMoves(s, a.w, Next(c, s, a).workers[a.w], r);
    }
  }

  lemma SubmitWhenFull(c: Config, s: State, r: nat)
    requires RequestRight(s, r) && |s.queue| >= Capacity(c)
    ensures RequestRight(Next(c, s, Submit), r)
  {
    var s' := Next(c, s, Submit);
    assert Places(s', r) == Places(s, r) && (Accepted(s', r) <==> Accepted(s, r));
  }

  lemma SubmitWithRoom(c: Config, s: State, r: nat)
    requires RequestRight(s, r) && |s.queue| < Capacity(c)
    ensures RequestRight(Next(c, s, Submit), r)
  {
    var s' := Next(c, s, Submit);
    CountAppend(s.queue, Is(r), |s.callers|);
    assert Places(s', r) == Places(s, r) + (if r == |s.callers| then 1 else 0);
    assert Accepted(s', r) <==> Accepted(s, r) || r == |s.callers|;
  }

  lemma SubmitKeepsRequest(c: Config, s: State, r: nat)
    requires RequestRight(s, r)
    ensures RequestRight(Next(c, s, Submit), r)
  {
    if |s.queue| < Capacity(c) {
      SubmitWithRoom(c, s, r);
    } else {
      SubmitWhenFull(c, s, r);
    }
  }

  lemma CallerMoveKeepsRequest(c: Config, s: State, a: Action, r: nat)
    requires RequestRight(s, r) && Enabled(s, a) && !MovesWorker(a)
    ensures RequestRight(Next(c, s, a), r)
  {
    if a.Submit? {
      SubmitKeepsRequest(c, s, r);
    } else {
      assert Places(Next(c, s, a), r) == Places(s, r);
    }
  }

  lemma NextKeepsInv(c: Config, s: State, a: Action)
    requires Inv(c, s) && Enabled(s, a)
    ensures Inv(c, Next(c, s, a))
  {
    if MovesWorker(a) {
      WorkerMoveKeepsCounters(c, s, a);
    } else {
      CallerMoveKeepsCounters(c, s, a);
    }
    forall r: nat
      ensures RequestRight(Next(c, s, a), r)
    {
      if MovesWorker(a) {
        WorkerMoveKeepsRequest(c, s, a, r);
      } else {
        CallerMoveKeepsRequest(c, s, a, r);
      }
    }
  }

  // ---------------------------------------------------------------------------------------
  // Every interleaving
  // ---------------------------------------------------------------------------------------

  predicate Possible(c: Config, s: State, actions: seq<Action>)
    decreases |actions|
  {
    actions == [] || (Enabled(s, actions[0]) && Possible(c, Next(c, s, actions[0]), actions[1..]))
  }

  function Run(c: Config, s: State, actions: seq<Action>): State
    requires Possible(c, s, actions)
    decreases |actions|
  {
    if actions == [] then s else Run(c, Next(c, s, actions[0]), actions[1..])
  }

  lemma {:induction false} RunsKeepInv(c: Config, s: State, actions: seq<Action>)
    requires Inv(c, s) && Possible(c, s, actions)
    ensures Inv(c, Run(c, s, actions))
    decreases |actions|
  {
    if actions != [] {
      NextKeepsInv(c, s, actions[0]);
      RunsKeepInv(c, Next(c, s, actions[0]), actions[1..]);
    }
  }

  /** The workers that are running an operation. */
  function Underway(s: State): set<int> { set w | 0 <= w < |s.workers| && s.workers[w].Running? }

  lemma {:induction false} UnderwayAreActive(s: State, n: nat)
    requires n <= |s.workers|
    ensures |set w | 0 <= w < n && s.workers[w].Running?| <= Count(s.workers[..n], IsActive)
    decreases n
  {
    var underway := set w | 0 <= w < n && s.workers[w].Running?;
    if n == 0 {
      assert underway == {};
    } else {
      UnderwayAreActive(s, n - 1);
      var before := set w | 0 <= w < n - 1 && s.workers[w].Running?;
      assert s.workers[..n][..n - 1] == s.workers[..n - 1];
      assert underway == if s.workers[n - 1].Running? then before + {n - 1} else before;
    }
  }

  /** Under any interleaving: the queued counter is the queue length plus the decrements minus the
      increments still to come, no operation is started twice or for a rejected request, and the
      counters add up.  No more requests are active or waiting than configured, where zero stands for
      ten active and a hundred waiting ones. */
  lemma {:induction false} BulkheadSafety(c: Config, actions: seq<Action>)
    requires Possible(c, Initial(c), actions)
    ensures var s := Run(c, Initial(c), actions);
            && s.queuedRequests == |s.queue| + Count(s.workers, IsTook) - Count(s.callers, IsEnqueued)
            && 0 <= s.activeRequests && |Underway(s)| <= s.activeRequests
            && (c.maxConcurrentRequests > 0 ==> s.activeRequests <= c.maxConcurrentRequests)
            && (c.maxConcurrentRequests == 0 ==> s.activeRequests <= 10)
            && (c.queueSize > 0 ==> |s.queue| <= c.queueSize) && (c.queueSize == 0 ==> |s.queue| <= 100)
            && (forall r: nat :: s.started[r] <= (if Accepted(s, r) then 1 else 0))
            && (forall r: nat :: r in s.answered ==> s.started[r] == 1)
            && s.completedRequests == |s.answered| + Count(s.workers, IsReporting)
            && s.rejectedRequests == Count(s.callers, IsRejected)
  {
    var s := Run(c, Initial(c), actions);
    InitialInv(c);
    RunsKeepInv(c, Initial(c), actions);
    CountBound(s.workers, IsActive);
    UnderwayAreActive(s, |s.workers|);
    assert s.workers[..|s.workers|] == s.workers;
    forall r: nat
      ensures s.started[r] <= (if Accepted(s, r) then 1 else 0)
      ensures r in s.answered ==> s.started[r] == 1
    {
      assert RequestRight(s, r);
      StartedAreHeld(s.workers, r);
    }
  }

  /** In every state that can be reached, a call is turned away exactly if the queue holds as many
      requests as configured, or a hundred if zero is configured; otherwise its request comes last. */
  lemma {:induction false} RejectedIff(c: Config, actions: seq<Action>)
    requires Possible(c, Initial(c), actions)
    ensures var s := Run(c, Initial(c), actions);
            var s', full := Next(c, s, Submit), |s.queue| == if c.queueSize == 0 then 100 else c.queueSize;
            && s'.callers == s.callers + [if full then Rejecting else Enqueued]
            && s'.queue == s.queue + (if full then [] else [|s.callers|])
            && s'.workers == s.workers
  {
    InitialInv(c);
    RunsKeepInv(c, Initial(c), actions);
  }

  // Requests are taken in the order of their arrival

  predicate InHands(s: State, r: nat) {
    exists w :: 0 <= w < |s.workers| && HoldsRequest(s.workers[w], r)
  }

  predicate Taken(s: State, r: nat) { r in s.answered || InHands(s, r) }

  predicate QueueAscends(s: State) {
    && (forall i, j :: 0 <= i < j < |s.queue| ==> s.queue[i] < s.queue[j])
    && (forall i :: 0 <= i < |s.queue| ==> s.queue[i] < |s.callers|)
  }

  ghost predicate OldestFirst(s: State) {
    && QueueAscends(s)
    && (forall r: nat :: Taken(s, r) ==> r < |s.callers|)
    && (forall r: nat, q: nat :: Taken(s, r) && q in s.queue ==> r < q)
  }

  lemma HoldsAfter(s: State, w: nat, x: Worker, r: nat)
    requires w < |s.workers| && InHands(s.(workers := s.workers[w := x]), r)
    ensures InHands(s, r) || HoldsRequest(x, r)
  {
    var w' :| 0 <= w' < |s.workers| && HoldsRequest(s.workers[w := x][w'], r);
    assert w' != w ==> HoldsRequest(s.workers[w'], r);
  }

  /** Only a worker that takes a request gets hold of one. */
  lemma TakenAfter(c: Config, s: State, a: Action, r: nat)
    requires Enabled(s, a) && Taken(Next(c, s, a), r)
    ensures Taken(s, r) || (a.Take? && r == s.queue[0])
  {
    if MovesWorker(a) {
      var x, s' := Next(c, s, a).workers[a.w], Next(c, s, a);
      assert s'.workers == s.workers[a.w := x];
      assert HoldsRequest(x, r) && !a.Take? ==> HoldsRequest(s.workers[a.w], r);
      if InHands(s', r) {
        assert InHands(s.(workers := s.workers[a.w := x]), r);
        HoldsAfter(s, a.w, x, r);
      } else if r !in s.answered {
        assert HoldsRequest(s.workers[a.w], r);
      }
    } else {
      assert Next(c, s, a).workers == s.workers;
    }
  }

  lemma QueueAfter(c: Config, s: State, a: Action)
    requires Enabled(s, a) && QueueAscends(s)
    ensures QueueAscends(Next(c, s, a)) && |s.callers| <= |Next(c, s, a).callers|
    ensures forall q: nat :: q in Next(c, s, a).queue ==> q in s.queue || (a.Submit? && q == |s.callers|)
    ensures a.Take? ==> forall q: nat :: q in Next(c, s, a).queue ==> s.queue[0] < q
  {
  }

  lemma NextKeepsOldestFirst(c: Config, s: State, a: Action)
    requires Enabled(s, a) && OldestFirst(s)
    ensures OldestFirst(Next(c, s, a))
  {
    var s' := Next(c, s, a);
    QueueAfter(c, s, a);
    forall r: nat | Taken(s', r)
      ensures r < |s'.callers| && forall q: nat :: q in s'.queue ==> r < q
    {
      TakenAfter(c, s, a, r);
    }
  }

  lemma {:induction false} RunsKeepOldestFirst(c: Config, s: State, actions: seq<Action>)
    requires OldestFirst(s) && Possible(c, s, actions)
    ensures OldestFirst(Run(c, s, actions))
    decreases |actions|
  {
    if actions != [] {
      NextKeepsOldestFirst(c, s, actions[0]);
      RunsKeepOldestFirst(c, Next(c, s, actions[0]), actions[1..]);
    }
  }

  /** Under any interleaving, no request that a worker has taken came later than one that waits. */
  lemma FirstComeFirstTaken(c: Config, actions: seq<Action>, taken: nat, waiting: nat)
    requires Possible(c, Initial(c), actions)
    requires var s := Run(c, Initial(c), actions);
             waiting in s.queue && (taken in s.answered || InHands(s, taken))
    ensures taken < waiting
  {
    RunsKeepOldestFirst(c, Initial(c), actions);
    assert Taken(Run(c, Initial(c), actions), taken);
  }

  // A run up to the limits

  function Submits(n: nat): seq<Action> { if n == 0 then [] else [Submit] + Submits(n - 1) }

  /** Workers from number w on start a request each, then further ones are submitted. */
  function Fill(w: nat, workers: nat, submits: nat): seq<Action>
    decreases workers
  {
    if workers == 0 then Submits(submits)
    else [Submit] + ([Take(w)] + ([CountTaken(w)] + ([CountActive(w)] + Fill(w + 1, workers - 1, submits))))
  }

  lemma FirstOfRun(c: Config, s: State, a: Action, rest: seq<Action>)
    requires Enabled(s, a) && Possible(c, Next(c, s, a), rest)
    ensures Possible(c, s, [a] + rest) && Run(c, s, [a] + rest) == Run(c, Next(c, s, a), rest)
  {
    assert ([a] + rest)[1..] == rest;
  }

  lemma TwoOfRun(c: Config, s: State, a: Action, b: Action, rest: seq<Action>)
    requires Enabled(s, a) && Enabled(Next(c, s, a), b) && Possible(c, Next(c, Next(c, s, a), b), rest)
    ensures Possible(c, s, [a] + ([b] + rest))
    ensures Run(c, s, [a] + ([b] + rest)) == Run(c, Next(c, Next(c, s, a), b), rest)
  {
    FirstOfRun(c, Next(c, s, a), b, rest);
    FirstOfRun(c, s, a, [b] + rest);
  }

  lemma {:induction false} SubmitsFill(c: Config, s: State, n: nat)
    requires |s.queue| + n <= Capacity(c)
    ensures Possible(c, s, Submits(n))
    ensures var s' := Run(c, s, Submits(n)); |s'.queue| == |s.queue| + n && s'.activeRequests == s.activeRequests
    decreases n
  {
    if n > 0 {
      SubmitsFill(c, Next(c, s, Submit), n - 1);
      FirstOfRun(c, s, Submit, Submits(n - 1));
    }
  }

  predicate IdleFrom(s: State, w: nat) { s.queue == [] && forall j :: w <= j < |s.workers| ==> s.workers[j] == Idle }

  lemma {:induction false} FillReaches(c: Config, s: State, w: nat, workers: nat, submits: nat)
    requires IdleFrom(s, w) && w + workers <= |s.workers| && submits <= Capacity(c)
    ensures Possible(c, s, Fill(w, workers, submits))
    ensures var s' := Run(c, s, Fill(w, workers, submits));
            s'.activeRequests == s.activeRequests + workers && |s'.queue| == submits
    decreases workers
  {
    if workers == 0 {
      SubmitsFill(c, s, submits);
    } else {
      var rest := Fill(w + 1, workers - 1, submits);
      var s1 := Next(c, s, Submit);
      var s2 := Next(c, s1, Take(w));
      var s3 := Next(c, s2, CountTaken(w));
      var s4 := Next(c, s3, CountActive(w));
      FillReaches(c, s4, w + 1, workers - 1, submits);
      TwoOfRun(c, s2, CountTaken(w), CountActive(w), rest);
      TwoOfRun(c, s, Submit, Take(w), [CountTaken(w)] + ([CountActive(w)] + rest));
    }
  }

  /** Both limits are reached, together: any numbers of active and of waiting requests within them. */
  lemma LimitsAreReached(c: Config, active: nat, waiting: nat)
    requires active <= if c.maxConcurrentRequests == 0 then 10 else c.maxConcurrentRequests
    requires waiting <= if c.queueSize == 0 then 100 else c.queueSize
    ensures exists actions :: Possible(c, Initial(c), actions)
              && Run(c, Initial(c), actions).activeRequests == active
              && |Run(c, Initial(c), actions).queue| == waiting
  {
    FillReaches(c, Initial(c), 0, active, waiting);
  }

  lemma {:induction false} StartedAreHeld(ws: seq<Worker>, r: nat)
    ensures Count(ws, Started(r)) <= Count(ws, Holding(r))
  {
    if ws != [] {
      StartedAreHeld(ws[..|ws| - 1], r);
    }
  }

  lemma AcceptedIsSomewhere(s: State, r: nat)
    requires RequestRight(s, r) && Accepted(s, r)
    ensures r in s.queue || InHands(s, r) || (r in s.answered && s.started[r] == 1)
  {
    if r !in s.queue && !InHands(s, r) {
      CountBound(s.queue, Is(r));
      assert Count(s.queue, Is(r)) == 0;
      CountBound(s.workers, Holding(r));
      assert Count(s.workers, Holding(r)) == 0;
      StartedAreHeld(s.workers, r);
    }
  }

  /** No accepted request is lost: it waits in the queue, is in the hands of a worker, or its
      operation was started exactly once and its answer sent. */
  lemma {:induction false} NothingIsLost(c: Config, actions: seq<Action>, r: nat)
    requires Possible(c, Initial(c), actions)
    ensures var s := Run(c, Initial(c), actions);
            Accepted(s, r) ==> r in s.queue || InHands(s, r) || (r in s.answered && s.started[r] == 1)
  {
    var s := Run(c, Initial(c), actions);
    InitialInv(c);
    RunsKeepInv(c, Initial(c), actions);
    if Accepted(s, r) {
      assert RequestRight(s, r);
      AcceptedIsSomewhere(s, r);
    }
  }

  /** Whenever a worker reports, the response channel is empty, so the response is kept. */
  lemma {:induction false} SendsAreNeverDropped(c: Config, actions: seq<Action>, w: nat)
    requires Possible(c, Initial(c), actions)
    ensures var s := Run(c, Initial(c), actions);
            w < |s.workers| && s.workers[w].Reporting? ==>
              s.workers[w].request !in s.filled
              && Next(c, s, Send(w)).filled == s.filled + {s.workers[w].request}
  {
    var s := Run(c, Initial(c), actions);
    InitialInv(c);
    RunsKeepInv(c, Initial(c), actions);
    if w < |s.workers| && s.workers[w].Reporting? {
      HeldMeansUnanswered(c, s, w);
    }
  }

  /** The queued counter may be below zero for a moment: a worker can take and count a request
      before its caller has counted it. */
  lemma QueuedCounterCanBeNegative(c: Config)
    ensures var actions := [Submit, Take(0), CountTaken(0)];
            Possible(c, Initial(c), actions) && Run(c, Initial(c), actions).queuedRequests == -1
  {
  }
}
