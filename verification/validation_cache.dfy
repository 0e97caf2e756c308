/** The cache of validated tokens in front of a bearer-token provider: pkg/auth/middleware.go.

    Each operation of the cache is one atomic step and reads the clock once.  A validation that the
    cache does not answer is three steps with anything in between: the miss, the provider's verdict,
    and the caching of an approval. */
module ValidationCache {
  import opened Common
  import opened BearerTokens

  datatype Entry = Entry(user: UserInfo, expiresAt: int)

  function Max(a: int, b: int): int { if a < b then b else a }

  class TokenCache {
    var entries: map<string, Entry>
    const maxSize: int
    const ttl: int

    /** One entry is kept even by a cache whose size limit is below one. */
    ghost predicate WithinSize()
      reads this
    {
      |entries| <= Max(1, maxSize)
    }

    constructor (maxSize: int, ttl: int)
      ensures entries == map[] && this.maxSize == maxSize && this.ttl == ttl && WithinSize()
    {
      entries := map[];
      this.maxSize, this.ttl := maxSize, ttl;
    }

    function Get(token: string, now: int): Option<UserInfo>
      reads this
    {
      if token !in entries || now > entries[token].expiresAt then None else Some(entries[token].user)
    }

    /** A full cache first drops an entry, whichever the map yields first. */
    method Set(token: string, user: UserInfo, now: int)
      requires WithinSize()
      modifies this
      ensures WithinSize()
      ensures token in entries && entries[token] == Entry(user, now + ttl)
      ensures forall t :: t in entries && t != token ==> t in old(entries) && entries[t] == old(entries)[t]
      ensures forall t, u :: t in old(entries) && u in old(entries) && t !in entries && u !in entries ==> t == u
      ensures |old(entries)| < maxSize ==> entries == old(entries)[token := Entry(user, now + ttl)]
    {
      if |entries| >= maxSize {
        if entries != map[] {
          var victim :| victim in entries;
          entries := DropKey(entries, victim);
        }
      }
      ghost var kept := entries;
      entries := entries[token := Entry(user, now + ttl)];
      assert entries.Keys == kept.Keys + {token};
    }

    /** One tick of the cleanup loop. */
    method Cleanup(now: int)
      requires WithinSize()
      modifies this
      ensures WithinSize()
      ensures entries == map t | t in old(entries) && now <= old(entries)[t].expiresAt :: old(entries)[t]
    {
      var pending := entries.Keys;
      while pending != {}
        invariant pending <= entries.Keys && WithinSize()
        invariant forall t :: t in entries ==> t in old(entries) && entries[t] == old(entries)[t]
        invariant forall t :: t in old(entries) && t !in pending ==>
                    (t in entries <==> now <= old(entries)[t].expiresAt)
      {
        var token :| token in pending;
        if now > entries[token].expiresAt {
          entries := DropKey(entries, token);
        }
        pending := pending - {token};
      }
    }
  }

  function DropKey(m: map<string, Entry>, key: string): (r: map<string, Entry>)
    requires key in m
    ensures |r| == |m| - 1
    ensures forall k :: k in r <==> k in m && k != key
    ensures forall k :: k in r ==> r[k] == m[k]
  {
    var r := m - {key};
    assert r.Keys == m.Keys - {key};
    r
  }

  // ---------------------------------------------------------------------------------------
  // The middleware
  // ---------------------------------------------------------------------------------------

  /** "caching" tells whether a cache is configured at all. */
  datatype Setup = Setup(config: Config, caching: bool, ttl: int)

  /** A validation the cache has not answered, before and after the provider's approval. */
  datatype Check = Missed(token: string) | Approved(token: string, user: UserInfo)

  /** "checks" holds the validations under way, by the number of their call. */
  datatype System = System(sessions: Sessions, entries: map<string, Entry>, checks: map<nat, Check>)

  const NoSystem := System(NoSessions, map[], map[])

  function Cached(entries: map<string, Entry>, token: string, now: int): Option<UserInfo> {
    if token in entries && now <= entries[token].expiresAt then Some(entries[token].user) else None
  }

  /** Entries may be dropped at any time, but never altered or added. */
  ghost predicate Shrunk(entries: map<string, Entry>, left: map<string, Entry>) {
    forall t :: t in left ==> t in entries && left[t] == entries[t]
  }

  /** An approval is cached, if there is a cache, for one time-to-live from this moment. */
  ghost predicate CachedAt(
    p: Setup, entries: map<string, Entry>, token: string, user: UserInfo, now: int, entries': map<string, Entry>)
  {
    if p.caching then
      token in entries' && entries'[token] == Entry(user, now + p.ttl) && Shrunk(entries, entries' - {token})
    else entries' == entries
  }

  class AuthMiddleware {
    const provider: BearerTokenProvider
    const tokenCache: TokenCache?

    ghost function Entries(): map<string, Entry>
      reads tokenCache
    {
      if tokenCache == null then map[] else tokenCache.entries
    }

    ghost function Plan(): Setup {
      Setup(provider.config, tokenCache != null, if tokenCache == null then 0 else tokenCache.ttl)
    }

    constructor (provider: BearerTokenProvider, tokenCache: TokenCache?)
      ensures this.provider == provider && this.tokenCache == tokenCache
    {
      this.provider, this.tokenCache := provider, tokenCache;
    }

    /** The three steps of a validation, at three instants. */
    method ValidateToken(token: string, looked: int, validated: int, stored: int) returns (r: Result<UserInfo, Error>)
      requires provider.Represents() && (tokenCache != null ==> tokenCache.WithinSize())
      modifies tokenCache
      ensures provider.Represents() && (tokenCache != null ==> tokenCache.WithinSize())
      ensures var entries := old(Entries());
              if token in entries && looked <= entries[token].expiresAt then
                r == Success(entries[token].user) && Entries() == entries
              else if Accepts(provider.store, token, validated) then
                var user := provider.store.Rec(token).user;
                r == Success(user) && CachedAt(Plan(), entries, token, user, stored, Entries())
              else r.Failure? && Entries() == entries
    {
      if tokenCache != null {
        var cached := tokenCache.Get(token, looked);
        if cached.Some? {
          return Success(cached.value);
        }
      }
      var user := provider.Validate(token, validated);
      if user.Failure? {
        return Failure(user.error);
      }
      if tokenCache != null {
        tokenCache.Set(token, user.value, stored);
      }
      return Success(user.value);
    }
  }

  // ---------------------------------------------------------------------------------------
  // Runs of provider and cache together, with validations overlapping anything
  // ---------------------------------------------------------------------------------------

  datatype Event =
    | Manage(op: Op, at: int)
    | Hit(token: string, user: UserInfo, at: int)
    | Miss(call: nat, token: string, at: int)
    | Approve(call: nat, at: int)
    | Refuse(call: nat, at: int)
    | Finish(call: nat, at: int)
    | Sweep(at: int)

  predicate HasMissed(sys: System, call: nat) { call in sys.checks && sys.checks[call].Missed? }

  predicate HasApproval(sys: System, call: nat) { call in sys.checks && sys.checks[call].Approved? }

  ghost predicate SystemStep(p: Setup, sys: System, e: Event, sys': System) {
    match e
    case Manage(op, _) =>
      Fresh(sys.sessions, op) && sys' == sys.(sessions := Step(p.config, sys.sessions, op))
    case Hit(token, user, at) => sys' == sys && Cached(sys.entries, token, at) == Some(user)
    case Miss(call, token, at) =>
      && call !in sys.checks && Cached(sys.entries, token, at) == None
      && sys' == sys.(checks := sys.checks[call := Missed(token)])
    case Approve(call, at) =>
      HasMissed(sys, call) &&
      var token, s := sys.checks[call].token, sys.sessions.store;
      && Accepts(s, token, at)
      && sys' == sys.(checks := sys.checks[call := Approved(token, s.Rec(token).user)])
    case Refuse(call, at) =>
      && HasMissed(sys, call) && !Accepts(sys.sessions.store, sys.checks[call].token, at)
      && sys' == sys.(checks := sys.checks - {call})
    case Finish(call, at) =>
      && HasApproval(sys, call) && sys'.sessions == sys.sessions && sys'.checks == sys.checks - {call}
      && CachedAt(p, sys.entries, sys.checks[call].token, sys.checks[call].user, at, sys'.entries)
    case Sweep(at) => sys' == sys.(entries := sys'.entries) && Shrunk(sys.entries, sys'.entries)
  }

  /** Event number i leads from state number i to the next, and time does not run backwards. */
  ghost predicate IsPath(p: Setup, states: seq<System>, events: seq<Event>) {
    && |states| == |events| + 1
    && (forall i, j :: 0 <= i < |events| && j == i + 1 ==> SystemStep(p, states[i], events[i], states[j]))
    && (forall i, j :: 0 <= i <= j < |events| ==> events[i].at <= events[j].at)
  }

  ghost predicate IsRun(p: Setup, states: seq<System>, events: seq<Event>) {
    IsPath(p, states, events) && states[0] == NoSystem
  }

  /** Event number i lets in a user for a token: from the cache, or at the end of a validation. */
  predicate LetsIn(states: seq<System>, events: seq<Event>, i: int, token: string, user: UserInfo) {
    0 <= i < |events| < |states| &&
    match events[i]
    case Hit(t, u, _) => t == token && u == user
    case Finish(call, _) => call in states[i].checks && states[i].checks[call] == Approved(token, user)
    case _ => false
  }

  /** Event number i is the provider's approval of this user for this token. */
  predicate ApprovedAt(states: seq<System>, events: seq<Event>, i: int, call: nat, token: string, user: UserInfo) {
    && 0 <= i < |events| < |states| && events[i].Approve? && events[i].call == call
    && HasMissed(states[i], call) && states[i].checks[call].token == token
    && Accepts(states[i].sessions.store, token, events[i].at)
    && states[i].sessions.store.Rec(token).user == user
  }

  /** Event number i ends the validation that had this approval, and caches it. */
  predicate FinishedAt(states: seq<System>, events: seq<Event>, i: int, call: nat, token: string, user: UserInfo) {
    && 0 <= i < |events| < |states| && events[i].Finish? && events[i].call == call
    && call in states[i].checks && states[i].checks[call] == Approved(token, user)
  }

  lemma {:induction false} ApprovalsWereGiven(p: Setup, states: seq<System>, events: seq<Event>, n: nat, call: nat)
    requires IsRun(p, states, events) && n < |states| && HasApproval(states[n], call)
    ensures exists i :: ApprovedAt(states, events, i, call, states[n].checks[call].token, states[n].checks[call].user)
                        && i < n
  {
    var m := n - 1;
    assert SystemStep(p, states[m], events[m], states[n]);
    if HasApproval(states[m], call) && states[m].checks[call] == states[n].checks[call] {
      ApprovalsWereGiven(p, states, events, m, call);
    } else {
      assert ApprovedAt(states, events, m, call, states[n].checks[call].token, states[n].checks[call].user);
    }
  }

  /** Where a cached entry comes from. */
  lemma {:induction false} EntriesWereCached(p: Setup, states: seq<System>, events: seq<Event>, n: nat, token: string)
    requires IsRun(p, states, events) && n < |states| && token in states[n].entries
    ensures exists i, call :: FinishedAt(states, events, i, call, token, states[n].entries[token].user) && i < n
                              && states[n].entries[token].expiresAt == events[i].at + p.ttl
  {
    var m := n - 1;
    assert SystemStep(p, states[m], events[m], states[n]);
    if token in states[m].entries && states[n].entries[token] == states[m].entries[token] {
      EntriesWereCached(p, states, events, m, token);
    } else {
      assert FinishedAt(states, events, m, events[m].call, token, states[n].entries[token].user);
    }
  }

  /** Whoever is let in at time t was approved by the provider itself for that token at some t0, and
      this approval was cached (or handed out) at some t1 with t0 <= t1 <= t <= t1 + ttl. */
  lemma {:induction false} AcceptedWasApproved(
    p: Setup, states: seq<System>, events: seq<Event>, n: nat, token: string, user: UserInfo)
    requires IsRun(p, states, events) && LetsIn(states, events, n, token, user)
    ensures exists i, j, call ::
              && ApprovedAt(states, events, i, call, token, user) && FinishedAt(states, events, j, call, token, user)
              && i < j <= n
              && events[i].at <= events[j].at <= events[n].at <= events[j].at + Max(0, p.ttl)
  {
    assert SystemStep(p, states[n], events[n], states[n + 1]);
    var j, call := n, 0;
    if events[n].Hit? {
      EntriesWereCached(p, states, events, n, token);
      j, call :| FinishedAt(states, events, j, call, token, user) && j < n
                 && states[n].entries[token].expiresAt == events[j].at + p.ttl;
    } else {
      call := events[n].call;
      assert FinishedAt(states, events, n, call, token, user);
    }
    ApprovalsWereGiven(p, states, events, j, call);
    var i :| ApprovedAt(states, events, i, call, token, user) && i < j;
  }

  lemma {:induction false} RunKeepsSessionsInv(p: Setup, states: seq<System>, events: seq<Event>, n: nat)
    requires IsRun(p, states, events) && n < |states|
    ensures SessionsInv(states[n].sessions)
  {
    if n > 0 {
      RunKeepsSessionsInv(p, states, events, n - 1);
      assert SystemStep(p, states[n - 1], events[n - 1], states[n]);
      if events[n - 1].Manage? {
        StepKeepsInv(p.config, states[n - 1].sessions, events[n - 1].op);
      }
    }
  }

  /** Event number i is the login with this access token and user. */
  predicate LogsIn(events: seq<Event>, i: int, access: string, user: UserInfo) {
    && 0 <= i < |events| && events[i].Manage? && events[i].op.LoginOp?
    && events[i].op.access == access && events[i].op.user == user
  }

  lemma {:induction false} SessionsWereOpened(
    p: Setup, states: seq<System>, events: seq<Event>, n: nat, session: nat, access: string, user: UserInfo)
    requires IsRun(p, states, events) && n < |states|
    requires OpenedWith(states[n].sessions.store, session, access, user)
    ensures exists i :: LogsIn(events, i, access, user) && i < n
  {
    var m := n - 1;
    assert SystemStep(p, states[m], events[m], states[n]);
    RunKeepsSessionsInv(p, states, events, m);
    if events[m].Manage? {
      SessionOpenedByStep(p.config, states[m].sessions, events[m].op, session, access, user);
    }
    if OpenedWith(states[m].sessions.store, session, access, user) {
      SessionsWereOpened(p, states, events, m, session, access, user);
    } else {
      assert LogsIn(events, m, access, user);
    }
  }

  /** Whoever is let in is the user of a login before, and of the one that opened the token's session. */
  lemma {:induction false} LetInAsLoginUser(
    p: Setup, states: seq<System>, events: seq<Event>, n: nat, token: string, user: UserInfo)
    requires IsRun(p, states, events) && LetsIn(states, events, n, token, user)
    ensures exists i, j, access ::
              && LogsIn(events, i, access, user) && i < j <= n
              && token in states[j].sessions.store.sessionOf
              && BelongsTo(states[j].sessions.store, access, states[j].sessions.store.sessionOf[token])
  {
    AcceptedWasApproved(p, states, events, n, token, user);
    var j, f, call :| ApprovedAt(states, events, j, call, token, user)
                      && FinishedAt(states, events, f, call, token, user) && j < f <= n;
    RunKeepsSessionsInv(p, states, events, j);
    var s := states[j].sessions.store;
    assert KeyKnown(s, token);
    SessionsWereOpened(p, states, events, j, s.sessionOf[token], s.roots[s.sessionOf[token]], user);
  }

  // ---------------------------------------------------------------------------------------
  // How long a revoked session can be let in
  // ---------------------------------------------------------------------------------------

  ghost predicate IsPathFrom(p: Setup, sys: System, r: int, states: seq<System>, events: seq<Event>) {
    IsPath(p, states, events) && states[0] == sys && forall i :: 0 <= i < |events| ==> r <= events[i].at
  }

  /** Event number n lets somebody in with a token of the session. */
  ghost predicate LetsSessionIn(states: seq<System>, events: seq<Event>, n: int, session: nat) {
    exists token, user ::
      LetsIn(states, events, n, token, user) && BelongsTo(states[n].sessions.store, token, session)
  }

  /** Whatever follows from time r on, nobody is let in with a token of the session later than one
      time-to-live after r. */
  ghost predicate Bounded(p: Setup, sys: System, session: nat, r: int) {
    forall states: seq<System>, events: seq<Event>, n: nat ::
      IsPathFrom(p, sys, r, states, events) && LetsSessionIn(states, events, n, session) ==>
        events[n].at <= r + Max(0, p.ttl)
  }

  /** A validation of a token of the session has the provider's approval and has not finished. */
  predicate Validating(sys: System, call: nat, session: nat) {
    HasApproval(sys, call) && BelongsTo(sys.sessions.store, sys.checks[call].token, session)
  }

  ghost predicate NoneValidating(sys: System, session: nat) {
    forall call :: call in sys.checks ==> !Validating(sys, call, session)
  }

  /** What holds from a time r on at which the session was closed and not being validated. */
  ghost predicate RunningOut(p: Setup, sys: System, session: nat, r: int) {
    && SessionsInv(sys.sessions) && session < |sys.sessions.store.roots|
    && Ended(sys.sessions.store, session) && Quiet(sys.sessions, session) && NoneValidating(sys, session)
    && forall t :: t in sys.entries && BelongsTo(sys.sessions.store, t, session) ==>
         sys.entries[t].expiresAt <= r + p.ttl
  }

  lemma StepKeepsRunningOut(p: Setup, sys: System, e: Event, sys': System, session: nat, r: int)
    requires RunningOut(p, sys, session, r) && SystemStep(p, sys, e, sys')
    ensures RunningOut(p, sys', session, r)
  {
    if e.Manage? {
      StepKeepsInv(p.config, sys.sessions, e.op);
      StepKeepsClosed(p.config, sys.sessions, e.op, session);
    } else if e.Approve? {
      EndedIsNeverAccepted(sys.sessions.store, session);
    }
    forall call | call in sys'.checks
      ensures !Validating(sys', call, session)
    {
      assert call in sys.checks ==> !Validating(sys, call, session);
    }
  }

  lemma {:induction false} PathKeepsRunningOut(
    p: Setup, states: seq<System>, events: seq<Event>, n: nat, session: nat, r: int)
    requires IsPath(p, states, events) && n < |states| && RunningOut(p, states[0], session, r)
    ensures RunningOut(p, states[n], session, r)
  {
    if n > 0 {
      PathKeepsRunningOut(p, states, events, n - 1, session, r);
      assert SystemStep(p, states[n - 1], events[n - 1], states[n]);
      StepKeepsRunningOut(p, states[n - 1], events[n - 1], states[n], session, r);
    }
  }

  lemma HitOrValidating(states: seq<System>, events: seq<Event>, n: nat, session: nat)
    requires LetsSessionIn(states, events, n, session)
    ensures n < |events| < |states|
    ensures events[n].Hit? || (events[n].Finish? && Validating(states[n], events[n].call, session))
  {
  }

  lemma RunningOutIsBounded(p: Setup, sys: System, session: nat, r: int)
    requires RunningOut(p, sys, session, r)
    ensures Bounded(p, sys, session, r)
  {
    forall states: seq<System>, events: seq<Event>, n: nat
      | IsPathFrom(p, sys, r, states, events) && LetsSessionIn(states, events, n, session)
      ensures events[n].at <= r + Max(0, p.ttl)
    {
      PathKeepsRunningOut(p, states, events, n, session, r);
      assert SystemStep(p, states[n], events[n], states[n + 1]);
      HitOrValidating(states, events, n, session);
    }
  }

  /** A validation with an approval lets its user in whenever it finishes. */
  lemma ValidatingIsUnbounded(p: Setup, sys: System, call: nat, session: nat, r: int)
    requires Validating(sys, call, session)
    ensures !Bounded(p, sys, session, r)
  {
    var check, late := sys.checks[call], r + Max(0, p.ttl) + 1;
    var entries := if p.caching then sys.entries[check.token := Entry(check.user, late + p.ttl)] else sys.entries;
    var states := [sys, sys.(entries := entries, checks := sys.checks - {call})];
    var events := [Finish(call, late)];
    assert SystemStep(p, states[0], events[0], states[1]);
    assert IsPathFrom(p, sys, r, states, events) && LetsIn(states, events, 0, check.token, check.user);
    assert LetsSessionIn(states, events, 0, session);
  }

  /** When a session has been closed for good by time r, its tokens are let in until one time-to-live
      after r and no longer, exactly if no validation of the session had its approval and was still
      under way at r. */
  lemma {:induction false} ClosedIsSoonRefusedIff(
    p: Setup, states: seq<System>, events: seq<Event>, session: nat, r: int)
    requires IsRun(p, states, events) && forall i :: 0 <= i < |events| ==> events[i].at <= r
    requires var q := states[|events|].sessions;
             session < |q.store.roots| && ClosedForGood(p.config, q, session)
    ensures Bounded(p, states[|events|], session, r) <==> NoneValidating(states[|events|], session)
  {
    var n := |events|;
    var sys := states[n];
    RunKeepsSessionsInv(p, states, events, n);
    ClosedForGoodIff(p.config, sys.sessions, session);
    if NoneValidating(sys, session) {
      forall t | t in sys.entries
        ensures sys.entries[t].expiresAt <= r + p.ttl
      {
        EntriesWereCached(p, states, events, n, t);
      }
      RunningOutIsBounded(p, sys, session, r);
    } else {
      var call :| call in sys.checks && Validating(sys, call, session);
      ValidatingIsUnbounded(p, sys, call, session, r);
    }
  }

  /** After a revocation at time r that gets at the session's current token with no refresh in flight:
      tokens of the session are let in until r plus the time-to-live and no longer, exactly if no
      approved validation of the session is under way at r. */
  lemma {:induction false} RevokedIsSoonRefusedIff(p: Setup, states: seq<System>, events: seq<Event>, token: string)
    requires IsRun(p, states, events) && |events| > 0
    requires var last, q := events[|events| - 1], states[|events| - 1].sessions;
             && last.Manage? && last.op == RevokeOp(token) && token in q.store.keys && KeyKnown(q.store, token)
             && GetsAtCurrent(q.store, token) && Quiet(q, q.store.Rec(token).session)
    ensures var sys, session := states[|events|], states[|events| - 1].sessions.store.Rec(token).session;
            Bounded(p, sys, session, events[|events| - 1].at) <==> NoneValidating(sys, session)
  {
    var n := |events| - 1;
    var q, sys := states[n].sessions, states[n + 1];
    RunKeepsSessionsInv(p, states, events, n);
    assert SystemStep(p, states[n], events[n], sys);
    StepKeepsInv(p.config, q, events[n].op);
    RevokeClosesFromIff(p.config, q, token);
    ClosedIsSoonRefusedIff(p, states, events, q.store.Rec(token).session, events[n].at);
  }
}
