/** Bearer-token sessions: pkg/auth/bearer.go.

    Token records are shared: the access token and the refresh token handed out together are two
    keys for one record, and a refresh later changes that record through either key.  The store
    below keeps this sharing as a map from keys to record names; the class further down keeps it
    as references, and each of its methods is proved to be the operation on the store.

    Each operation is one atomic step and reads the clock once, except that a refresh is two steps
    with anything in between: a check under the read lock, which remembers the record it found, and
    a commit under the write lock, which does not check again.  Token strings are arguments; they
    are new and not empty, which the source gets from 32 random bytes. */
module BearerTokens {
  import opened Common

  datatype UserInfo = UserInfo(id: string, username: string)

  datatype Error = InvalidCredentials | TokenInvalid | TokenRevoked | TokenExpired

  datatype AuthRequest = Basic(username: string, password: string) | Bearer(token: string) | OtherType

  datatype AuthResult = AuthResult(accessToken: string, refreshToken: string, user: UserInfo, issuedAt: int)

  datatype Config = Config(tokenExpiry: int, refreshExpiry: int, refreshable: bool)

  /** A token record.  "session" numbers the login it descends from; "root" tells whether the
      login itself made it, so that the refresh token is a second key for it. */
  datatype Record = Record(
    token: string, refreshToken: string, user: UserInfo, issuedAt: int, expiresAt: int, revoked: bool,
    session: nat, root: bool)

  /** "keys" maps each stored token to the name of its record, which is the access token the
      record was made for; records outlive their keys.  "sessionOf" remembers every token ever
      handed out, and "roots" names the login's record of each session. */
  datatype Store = Store(
    keys: map<string, string>, records: map<string, Record>, sessionOf: map<string, nat>, roots: seq<string>)
  {
    predicate Has(t: string) { t in keys && keys[t] in records }

    function Rec(t: string): Record
      requires Has(t)
    {
      records[keys[t]]
    }
  }

  const EmptyStore := Store(map[], map[], map[], [])

  /** A refresh whose check has passed: its token, and the name of the record it remembers. */
  datatype Pending = Pending(refreshToken: string, name: string)

  /** The store, and the refreshes between check and commit, by the number of their call. */
  datatype Sessions = Sessions(store: Store, refreshing: map<nat, Pending>)

  const NoSessions := Sessions(EmptyStore, map[])

  // ---------------------------------------------------------------------------------------
  // Operations on the store
  // ---------------------------------------------------------------------------------------

  predicate Accepts(s: Store, token: string, now: int) {
    s.Has(token) && !s.Rec(token).revoked && now <= s.Rec(token).expiresAt
  }

  /** Store a new record under its own access token; a login's record opens a session. */
  function WithRecord(s: Store, access: string, record: Record): Store {
    Store(s.keys[access := access], s.records[access := record], s.sessionOf[access := record.session],
          if record.root then s.roots + [access] else s.roots)
  }

  /** Make a record known under one more token. */
  function WithKey(s: Store, token: string, name: string, session: nat): Store {
    s.(keys := s.keys[token := name], sessionOf := s.sessionOf[token := session])
  }

  function WithToken(s: Store, name: string, token: string): Store
    requires name in s.records
  {
    s.(records := s.records[name := s.records[name].(token := token)])
  }

  /** "refreshToken" is empty for a session that cannot be refreshed. */
  function LoginWith(c: Config, s: Store, user: UserInfo, now: int, access: string, refreshToken: string): Store {
    var s1 := WithRecord(s, access,
                         Record(access, refreshToken, user, now, now + c.tokenExpiry, false, |s.roots|, true));
    if refreshToken != "" then WithKey(s1, refreshToken, access, |s.roots|) else s1
  }

  function Login(c: Config, s: Store, user: UserInfo, now: int, access: string, refresh: string): Store {
    LoginWith(c, s, user, now, access, if c.refreshable then refresh else "")
  }

  /** Mark a token's record as revoked, if the token is stored. */
  function MarkRevoked(s: Store, token: string): Store {
    if s.Has(token) then s.(records := s.records[s.keys[token] := s.Rec(token).(revoked := true)]) else s
  }

  /** The check of a refresh. */
  predicate CanRefresh(c: Config, s: Store, refreshToken: string, now: int) {
    && c.refreshable && s.Has(refreshToken)
    && s.Rec(refreshToken).refreshToken == refreshToken && !s.Rec(refreshToken).revoked
    && now <= s.Rec(refreshToken).issuedAt + c.refreshExpiry
  }

  /** The record that a commit adds. */
  function NewlyRefreshed(c: Config, s: Store, p: Pending, now: int, access: string): Record
    requires p.name in s.records
  {
    Record(access, p.refreshToken, s.records[p.name].user, now, now + c.tokenExpiry, false,
           s.records[p.name].session, false)
  }

  /** Revoke the token that a record points at, and let the record point at another one. */
  function Superseded(s: Store, name: string, token: string): Store
    requires name in s.records
  {
    WithToken(MarkRevoked(s, s.records[name].token), name, token)
  }

  /** The commit of a refresh, whatever has happened to the record since its check. */
  function Committed(c: Config, s: Store, p: Pending, now: int, access: string): Store
    requires p.name in s.records
  {
    Superseded(WithRecord(s, access, NewlyRefreshed(c, s, p, now, access)), p.name, access)
  }

  function Revoked(s: Store, token: string): Store
    requires s.Has(token)
  {
    var info := s.Rec(token);
    var s1 := MarkRevoked(s, token);
    var s2 := if info.refreshToken != "" && info.refreshToken != token then MarkRevoked(s1, info.refreshToken) else s1;
    if info.token != "" && info.token != token then MarkRevoked(s2, info.token) else s2
  }

  predicate Stale(c: Config, r: Record, now: int) {
    r.revoked || now > r.expiresAt + c.refreshExpiry
  }

  function Cleaned(c: Config, s: Store, now: int): Store {
    s.(keys := map t | t in s.keys && !(s.Has(t) && Stale(c, s.Rec(t), now)) :: s.keys[t])
  }

  // ---------------------------------------------------------------------------------------
  // What every reachable store satisfies, also with refreshes in flight
  // ---------------------------------------------------------------------------------------

  predicate BelongsTo(s: Store, token: string, session: nat) {
    token in s.sessionOf && s.sessionOf[token] == session
  }

  /** The login's record of a session. */
  predicate RootKnown(s: Store, i: nat) {
    i < |s.roots| && s.roots[i] in s.records &&
    var name, r := s.roots[i], s.records[s.roots[i]];
    && r.root && r.session == i && BelongsTo(s, name, i) && BelongsTo(s, r.token, i)
    && name != r.refreshToken && r.token != r.refreshToken
    && (r.refreshToken != "" ==> BelongsTo(s, r.refreshToken, i))
  }

  /** The access token that the login's record points at: the one handed out last. */
  function Current(s: Store, session: nat): string
    requires RootKnown(s, session)
  {
    s.records[s.roots[session]].token
  }

  /** A stored token is a key of its session's login record, which is then found under both its
      tokens, or it is the name of a refreshed record, of the same user.  A record not yet revoked
      is current. */
  predicate KeyKnown(s: Store, t: string) {
    s.Has(t) && RootKnown(s, s.Rec(t).session) &&
    var r, name := s.Rec(t), s.keys[t];
    var login := s.roots[r.session];
    && BelongsTo(s, t, r.session)
    && r.user == s.records[login].user
    && (!r.revoked ==> Current(s, r.session) == name)
    && if r.root then
         && name == login && (t == name || t == r.refreshToken)
         && name in s.keys && s.keys[name] == name
         && (r.refreshToken != "" ==> r.refreshToken in s.keys && s.keys[r.refreshToken] == name)
       else
         && t == name && t == r.token && t != login && Current(s, r.session) != login
         && r.refreshToken == s.records[login].refreshToken && r.refreshToken !in ["", t]
  }

  ghost predicate Inv(s: Store) {
    && "" !in s.sessionOf
    && (forall n :: n in s.records ==> n in s.sessionOf)
    && (forall t :: t in s.sessionOf ==> s.sessionOf[t] < |s.roots|)
    && (forall i: nat :: i < |s.roots| ==> RootKnown(s, i))
    && (forall t :: t in s.keys ==> KeyKnown(s, t))
  }

  /** A refresh in flight remembers the login's record of its session, stored or not. */
  predicate PendingKnown(s: Store, p: Pending) {
    p.name in s.records &&
    var r := s.records[p.name];
    && r.root && r.refreshToken == p.refreshToken && p.refreshToken != ""
    && r.session < |s.roots| && s.roots[r.session] == p.name
  }

  ghost predicate SessionsInv(q: Sessions) {
    Inv(q.store) && forall call :: call in q.refreshing ==> PendingKnown(q.store, q.refreshing[call])
  }

  /** Two different access tokens of one session are never both unrevoked, however refreshes
      overlap. */
  lemma AtMostOneLiveAccessToken(s: Store, t: string, u: string)
    requires Inv(s) && t in s.keys && u in s.keys && s.sessionOf[t] == s.sessionOf[u]
    requires t == s.keys[t] && u == s.keys[u] && !s.Rec(t).revoked && !s.Rec(u).revoked
    ensures t == u
  {
    assert KeyKnown(s, t) && KeyKnown(s, u);
  }

  /** What never changes in a record, and its revocation, which is never taken back. */
  predicate Evolved(r: Record, r': Record) {
    && r'.root == r.root && r'.session == r.session && r'.refreshToken == r.refreshToken
    && r'.user == r.user && r'.issuedAt == r.issuedAt && r'.expiresAt == r.expiresAt
    && (r.revoked ==> r'.revoked)
  }

  /** From one store to a later one: tokens handed out keep their session and their record, and are
      never stored again once gone; records never lose a revocation and never get more time. */
  ghost predicate NothingRevived(s: Store, s': Store) {
    && s.roots <= s'.roots
    && (forall t :: t in s.sessionOf ==> t in s'.sessionOf && s'.sessionOf[t] == s.sessionOf[t])
    && (forall t :: t in s.sessionOf && t in s'.keys ==> t in s.keys && s'.keys[t] == s.keys[t])
    && (forall n :: n in s.records ==> n in s'.records && Evolved(s.records[n], s'.records[n]))
  }

  lemma NothingRevivedTransitive(s1: Store, s2: Store, s3: Store)
    requires NothingRevived(s1, s2) && NothingRevived(s2, s3)
    ensures NothingRevived(s1, s3)
  {
  }

  lemma PendingStaysKnown(s: Store, s': Store, p: Pending)
    requires PendingKnown(s, p) && NothingRevived(s, s')
    ensures PendingKnown(s', p)
  {
  }

  predicate NewToken(s: Store, t: string) { t != "" && t !in s.sessionOf }

  // Logging in

  lemma LoginOldKey(c: Config, s: Store, user: UserInfo, now: int, access: string, refresh: string, t: string)
    requires Inv(s) && NewToken(s, access) && NewToken(s, refresh) && access != refresh && t in s.keys
    ensures KeyKnown(Login(c, s, user, now, access, refresh), t)
  {
    assert KeyKnown(s, t);
    assert t != access && t != refresh;
    var s' := Login(c, s, user, now, access, refresh);
    assert s'.Rec(t) == s.Rec(t) && s'.keys[t] == s.keys[t];
    LoginRoot(c, s, user, now, access, refresh, s.Rec(t).session);
  }

  lemma LoginNewKey(c: Config, s: Store, user: UserInfo, now: int, access: string, refresh: string, t: string)
    requires Inv(s) && NewToken(s, access) && NewToken(s, refresh) && access != refresh
    requires t in Login(c, s, user, now, access, refresh).keys && t !in s.keys
    ensures KeyKnown(Login(c, s, user, now, access, refresh), t)
  {
  }

  lemma LoginRoot(c: Config, s: Store, user: UserInfo, now: int, access: string, refresh: string, i: nat)
    requires Inv(s) && NewToken(s, access) && NewToken(s, refresh) && access != refresh && i <= |s.roots|
    ensures var s' := Login(c, s, user, now, access, refresh);
            && RootKnown(s', i)
            && (i < |s.roots| ==> RootKnown(s, i) && s'.roots[i] == s.roots[i]
                                  && s'.records[s'.roots[i]] == s.records[s.roots[i]])
  {
    assert i < |s.roots| ==> RootKnown(s, i);
  }

  lemma LoginRevivesNothing(c: Config, s: Store, user: UserInfo, now: int, access: string, refresh: string)
    requires Inv(s) && NewToken(s, access) && NewToken(s, refresh) && access != refresh
    ensures NothingRevived(s, Login(c, s, user, now, access, refresh))
  {
  }

  lemma LoginKeepsInv(c: Config, s: Store, user: UserInfo, now: int, access: string, refresh: string)
    requires Inv(s) && NewToken(s, access) && NewToken(s, refresh) && access != refresh
    ensures var s' := Login(c, s, user, now, access, refresh);
            Inv(s') && NothingRevived(s, s')
  {
    var s' := Login(c, s, user, now, access, refresh);
    LoginRevivesNothing(c, s, user, now, access, refresh);
    forall i: nat | i < |s'.roots|
      ensures RootKnown(s', i)
    {
      LoginRoot(c, s, user, now, access, refresh, i);
    }
    forall t | t in s'.keys
      ensures KeyKnown(s', t)
    {
      if t in s.keys {
        LoginOldKey(c, s, user, now, access, refresh, t);
      } else {
        LoginNewKey(c, s, user, now, access, refresh, t);
      }
    }
  }

  // Revoking

  lemma MarkEffect(s: Store, token: string, n: string)
    requires n in s.records
    ensures var s' := MarkRevoked(s, token);
            && s' == s.(records := s'.records) && s'.records.Keys == s.records.Keys
            && s'.records[n]
               == s.records[n].(revoked := s.records[n].revoked || (token in s.keys && s.keys[token] == n))
  {
  }

  /** A revocation marks exactly the records that the token, its refresh token and the token its
      record points at lead to. */
  lemma RevokedRecord(s: Store, token: string, n: string)
    requires s.Has(token) && n in s.records
    ensures var s', info := Revoked(s, token), s.Rec(token);
            && s' == s.(records := s'.records) && s'.records.Keys == s.records.Keys
            && s'.records[n] == s.records[n].(revoked := s'.records[n].revoked)
            && s'.records[n].revoked == (|| s.records[n].revoked || Leads(s, token, n)
                                         || (info.refreshToken != "" && Leads(s, info.refreshToken, n))
                                         || (info.token != "" && Leads(s, info.token, n)))
  {
    var info := s.Rec(token);
    var s1 := MarkRevoked(s, token);
    var s2 := if info.refreshToken != "" && info.refreshToken != token then MarkRevoked(s1, info.refreshToken) else s1;
    MarkEffect(s, token, n);
    MarkEffect(s1, info.refreshToken, n);
    MarkEffect(s2, info.token, n);
  }

  predicate Leads(s: Store, token: string, n: string) {
    token in s.keys && s.keys[token] == n
  }

  /** The records stay as they are but for revocations of keys, among them those needed. */
  lemma MarkingKeepsInv(s: Store, s': Store)
    requires Inv(s) && s'.keys == s.keys && s'.sessionOf == s.sessionOf && s'.roots == s.roots
    requires s'.records.Keys == s.records.Keys
    requires forall n :: n in s.records ==>
               s'.records[n] == s.records[n].(revoked := s'.records[n].revoked) && Evolved(s.records[n], s'.records[n])
    ensures Inv(s') && NothingRevived(s, s')
  {
    forall i: nat | i < |s'.roots|
      ensures RootKnown(s', i)
    {
      assert RootKnown(s, i);
    }
    forall t | t in s'.keys
      ensures KeyKnown(s', t)
    {
      assert KeyKnown(s, t);
    }
  }

  lemma RevokedKeepsInv(s: Store, token: string)
    requires Inv(s) && token in s.keys
    ensures s.Has(token) && Inv(Revoked(s, token)) && NothingRevived(s, Revoked(s, token))
  {
    assert KeyKnown(s, token);
    var s' := Revoked(s, token);
    RevokedRecord(s, token, s.keys[token]);
    forall n | n in s.records
      ensures s'.records[n] == s.records[n].(revoked := s'.records[n].revoked) && Evolved(s.records[n], s'.records[n])
    {
      RevokedRecord(s, token, n);
    }
    MarkingKeepsInv(s, s');
  }

  // Refreshing

  lemma CommittedShape(c: Config, s: Store, p: Pending, now: int, access: string)
    requires Inv(s) && PendingKnown(s, p) && NewToken(s, access)
    ensures var s', info := Committed(c, s, p, now, access), s.records[p.name];
            && s' == Store(s.keys[access := access], s'.records, s.sessionOf[access := info.session], s.roots)
            && s'.records.Keys == s.records.Keys + {access} && access !in s.records
            && s'.records[access] == NewlyRefreshed(c, s, p, now, access)
  {
    var info := s.records[p.name];
    var s1 := WithRecord(s, access, NewlyRefreshed(c, s, p, now, access));
    assert RootKnown(s, info.session);
    assert info.token in s.keys ==> KeyKnown(s, info.token) && s.keys[info.token] != access;
    MarkEffect(s1, info.token, access);
  }

  lemma CommittedRecord(c: Config, s: Store, p: Pending, now: int, access: string, n: string)
    requires Inv(s) && PendingKnown(s, p) && NewToken(s, access) && n in s.records
    ensures var s', r := Committed(c, s, p, now, access), s.records[n];
            && n in s'.records
            && s'.records[n] == r.(token := if n == p.name then access else r.token,
                                   revoked := r.revoked || Leads(s, s.records[p.name].token, n))
  {
    var info := s.records[p.name];
    var s1 := WithRecord(s, access, NewlyRefreshed(c, s, p, now, access));
    assert RootKnown(s, info.session);
    MarkEffect(s1, info.token, n);
  }

  lemma CommittedRoot(c: Config, s: Store, p: Pending, now: int, access: string, i: nat)
    requires Inv(s) && PendingKnown(s, p) && NewToken(s, access) && i < |s.roots|
    ensures RootKnown(s, i) && RootKnown(Committed(c, s, p, now, access), i)
    ensures Current(Committed(c, s, p, now, access), i)
            == if s.roots[i] == p.name then access else Current(s, i)
  {
    assert RootKnown(s, i);
    CommittedShape(c, s, p, now, access);
    CommittedRecord(c, s, p, now, access, s.roots[i]);
    CommittedRecord(c, s, p, now, access, p.name);
  }

  lemma CommittedKey(c: Config, s: Store, p: Pending, now: int, access: string, t: string)
    requires Inv(s) && PendingKnown(s, p) && NewToken(s, access) && t in s.keys
    ensures KeyKnown(Committed(c, s, p, now, access), t)
    ensures s.sessionOf[t] == s.records[p.name].session ==> Committed(c, s, p, now, access).Rec(t).revoked
  {
    var info := s.records[p.name];
    assert KeyKnown(s, t);
    CommittedShape(c, s, p, now, access);
    CommittedRecord(c, s, p, now, access, s.keys[t]);
    CommittedRoot(c, s, p, now, access, s.Rec(t).session);
    CommittedRecord(c, s, p, now, access, s.roots[s.Rec(t).session]);
    if s.Rec(t).session == info.session && !s.Rec(t).revoked {
      assert info.token == s.keys[t];
    }
  }

  lemma CommittedRevivesNothing(c: Config, s: Store, p: Pending, now: int, access: string)
    requires Inv(s) && PendingKnown(s, p) && NewToken(s, access)
    ensures NothingRevived(s, Committed(c, s, p, now, access))
  {
    CommittedShape(c, s, p, now, access);
    forall n | n in s.records
      ensures n in Committed(c, s, p, now, access).records
              && Evolved(s.records[n], Committed(c, s, p, now, access).records[n])
    {
      CommittedRecord(c, s, p, now, access, n);
    }
  }

  /** A commit keeps the invariant on whatever store it finds, and its access token is then the
      one of its session that is not revoked. */
  lemma CommittedKeepsInv(c: Config, s: Store, p: Pending, now: int, access: string)
    requires Inv(s) && PendingKnown(s, p) && NewToken(s, access)
    ensures var s' := Committed(c, s, p, now, access);
            && Inv(s') && NothingRevived(s, s')
            && BelongsTo(s', access, s.records[p.name].session) && Accepts(s', access, now + c.tokenExpiry)
            && forall t :: t in s'.keys && s'.sessionOf[t] == s'.sessionOf[access] ==>
                 s'.Has(t) && (s'.Rec(t).revoked <==> t != access)
  {
    var s' := Committed(c, s, p, now, access);
    CommittedShape(c, s, p, now, access);
    CommittedRevivesNothing(c, s, p, now, access);
    forall i: nat | i < |s'.roots|
      ensures RootKnown(s', i)
    {
      CommittedRoot(c, s, p, now, access, i);
    }
    assert KeyKnown(s', access) by {
      CommittedRoot(c, s, p, now, access, s.records[p.name].session);
      CommittedRecord(c, s, p, now, access, p.name);
    }
    forall t | t in s.keys
      ensures KeyKnown(s', t) && (s.sessionOf[t] == s.records[p.name].session ==> s'.Rec(t).revoked)
    {
      CommittedKey(c, s, p, now, access, t);
    }
  }

  // Cleaning up

  lemma CleanedKeepsInv(c: Config, s: Store, now: int)
    requires Inv(s)
    ensures Inv(Cleaned(c, s, now)) && NothingRevived(s, Cleaned(c, s, now))
  {
    var s' := Cleaned(c, s, now);
    forall i: nat | i < |s'.roots|
      ensures RootKnown(s', i)
    {
      assert RootKnown(s, i);
    }
    forall t | t in s'.keys
      ensures KeyKnown(s', t)
    {
      assert KeyKnown(s, t);
    }
  }

  // ---------------------------------------------------------------------------------------
  // Runs, with refreshes overlapping anything
  // ---------------------------------------------------------------------------------------

  datatype Op =
    | LoginOp(user: UserInfo, at: int, access: string, refresh: string)
    | RefreshCheck(call: nat, refreshToken: string, at: int)
    | RefreshCommit(call: nat, at: int, access: string)
    | RefreshAbandon(call: nat)
    | RevokeOp(token: string)
    | CleanupOp(at: int)

  /** The call is between its check and its commit. */
  predicate InFlight(q: Sessions, call: nat) {
    call in q.refreshing && q.refreshing[call].name in q.store.records
  }

  function Step(c: Config, q: Sessions, op: Op): Sessions {
    match op
    case LoginOp(user, at, access, refresh) => q.(store := Login(c, q.store, user, at, access, refresh))
    case RefreshCheck(call, token, at) =>
      if CanRefresh(c, q.store, token, at)
      then q.(refreshing := q.refreshing[call := Pending(token, q.store.keys[token])]) else q
    case RefreshCommit(call, at, access) =>
      if InFlight(q, call)
      then Sessions(Committed(c, q.store, q.refreshing[call], at, access), q.refreshing - {call}) else q
    case RefreshAbandon(call) => q.(refreshing := q.refreshing - {call})
    case RevokeOp(token) => if q.store.Has(token) then q.(store := Revoked(q.store, token)) else q
    case CleanupOp(at) => q.(store := Cleaned(c, q.store, at))
  }

  /** The token generator never repeats a string, and calls have numbers of their own. */
  predicate Fresh(q: Sessions, op: Op) {
    match op
    case LoginOp(_, _, access, refresh) => NewToken(q.store, access) && NewToken(q.store, refresh) && access != refresh
    case RefreshCheck(call, _, _) => call !in q.refreshing
    case RefreshCommit(_, _, access) => NewToken(q.store, access)
    case _ => true
  }

  predicate FreshRun(c: Config, q: Sessions, ops: seq<Op>)
    decreases |ops|
  {
    ops == [] || (Fresh(q, ops[0]) && FreshRun(c, Step(c, q, ops[0]), ops[1..]))
  }

  function Run(c: Config, q: Sessions, ops: seq<Op>): Sessions
    decreases |ops|
  {
    if ops == [] then q else Run(c, Step(c, q, ops[0]), ops[1..])
  }

  lemma StepKeepsStoreInv(c: Config, q: Sessions, op: Op)
    requires SessionsInv(q) && Fresh(q, op)
    ensures Inv(Step(c, q, op).store) && NothingRevived(q.store, Step(c, q, op).store)
  {
    var s := q.store;
    match op {
      case LoginOp(user, at, access, refresh) => LoginKeepsInv(c, s, user, at, access, refresh);
      case RefreshCheck(_, _, _) =>
      case RefreshCommit(call, at, access) =>
        if InFlight(q, call) { CommittedKeepsInv(c, s, q.refreshing[call], at, access); }
      case RefreshAbandon(_) =>
      case RevokeOp(token) =>
        if s.Has(token) { RevokedKeepsInv(s, token); }
      case CleanupOp(at) => CleanedKeepsInv(c, s, at);
    }
  }

  lemma CheckIsPending(c: Config, s: Store, refreshToken: string, at: int)
    requires Inv(s) && CanRefresh(c, s, refreshToken, at)
    ensures PendingKnown(s, Pending(refreshToken, s.keys[refreshToken]))
  {
    assert KeyKnown(s, refreshToken);
  }

  lemma StepKeepsInv(c: Config, q: Sessions, op: Op)
    requires SessionsInv(q) && Fresh(q, op)
    ensures SessionsInv(Step(c, q, op)) && NothingRevived(q.store, Step(c, q, op).store)
  {
    var q' := Step(c, q, op);
    StepKeepsStoreInv(c, q, op);
    forall call | call in q'.refreshing
      ensures PendingKnown(q'.store, q'.refreshing[call])
    {
      if call in q.refreshing {
        PendingStaysKnown(q.store, q'.store, q.refreshing[call]);
      } else {
        CheckIsPending(c, q.store, op.refreshToken, op.at);
      }
    }
  }

  /** Whatever happens, in whatever order and however it overlaps: the invariant holds throughout,
      and no token gets back what it has lost. */
  lemma {:induction false} RunsReviveNothing(c: Config, q: Sessions, ops: seq<Op>)
    requires SessionsInv(q) && FreshRun(c, q, ops)
    ensures SessionsInv(Run(c, q, ops)) && NothingRevived(q.store, Run(c, q, ops).store)
    decreases |ops|
  {
    if ops != [] {
      var q1 := Step(c, q, ops[0]);
      StepKeepsInv(c, q, ops[0]);
      RunsReviveNothing(c, q1, ops[1..]);
      NothingRevivedTransitive(q.store, q1.store, Run(c, q, ops).store);
    }
  }

  lemma RefusedStaysRefused(s: Store, s': Store, token: string, now: int, later: int)
    requires Inv(s) && Inv(s') && NothingRevived(s, s') && now <= later
    requires token in s.sessionOf && !Accepts(s, token, now)
    ensures !Accepts(s', token, later)
  {
    assert token in s.keys ==> KeyKnown(s, token);
  }

  /** A token that was handed out and is not accepted at some time is not accepted at any later
      time, whatever is done in between. */
  lemma InvalidStaysInvalid(c: Config, before: seq<Op>, after: seq<Op>, token: string, now: int, later: int)
    requires FreshRun(c, NoSessions, before) && FreshRun(c, Run(c, NoSessions, before), after)
    requires now <= later
    ensures var q := Run(c, NoSessions, before);
            token in q.store.sessionOf && !Accepts(q.store, token, now) ==>
              !Accepts(Run(c, q, after).store, token, later)
  {
    var q := Run(c, NoSessions, before);
    RunsReviveNothing(c, NoSessions, before);
    RunsReviveNothing(c, q, after);
    if token in q.store.sessionOf && !Accepts(q.store, token, now) {
      RefusedStaysRefused(q.store, Run(c, q, after).store, token, now, later);
    }
  }

  // ---------------------------------------------------------------------------------------
  // Whose tokens they are, and how long they last
  // ---------------------------------------------------------------------------------------

  predicate Issues(op: Op, token: string) {
    match op
    case LoginOp(_, _, access, refresh) => token == access || token == refresh
    case RefreshCommit(_, _, access) => token == access
    case _ => false
  }

  lemma StepIssues(c: Config, q: Sessions, op: Op, t: string)
    requires SessionsInv(q) && Fresh(q, op)
    requires t in Step(c, q, op).store.sessionOf && t !in q.store.sessionOf
    ensures Issues(op, t) && Step(c, q, op).store.Has(t)
    ensures var r := Step(c, q, op).store.Rec(t); r.issuedAt == op.at && r.expiresAt == op.at + c.tokenExpiry
  {
    var s := q.store;
    if op.RefreshCommit? && InFlight(q, op.call) {
      CommittedShape(c, s, q.refreshing[op.call], op.at, op.access);
    }
    if op.RevokeOp? && s.Has(op.token) {
      RevokedRecord(s, op.token, s.keys[op.token]);
    }
  }

  /** The token was issued by operation number k, and its record still says when and for how long. */
  predicate IssuedBy(c: Config, ops: seq<Op>, k: nat, token: string, r: Record) {
    && k < |ops| && Issues(ops[k], token)
    && r.issuedAt == ops[k].at && r.expiresAt == ops[k].at + c.tokenExpiry
  }

  lemma RecordKeepsIssue(s: Store, s': Store, t: string)
    requires NothingRevived(s, s') && t in s.sessionOf && s.Has(t) && s'.Has(t)
    ensures s'.Rec(t).issuedAt == s.Rec(t).issuedAt && s'.Rec(t).expiresAt == s.Rec(t).expiresAt
  {
  }

  lemma IssuedByFirst(c: Config, q: Sessions, ops: seq<Op>, t: string, r: Record)
    requires SessionsInv(q) && FreshRun(c, q, ops) && t !in q.store.sessionOf && ops != []
    requires t in Step(c, q, ops[0]).store.sessionOf
    requires Run(c, q, ops).store.Has(t) && r == Run(c, q, ops).store.Rec(t)
    ensures IssuedBy(c, ops, 0, t, r)
  {
    var q1 := Step(c, q, ops[0]);
    StepKeepsInv(c, q, ops[0]);
    StepIssues(c, q, ops[0], t);
    RunsReviveNothing(c, q1, ops[1..]);
    RecordKeepsIssue(q1.store, Run(c, q, ops).store, t);
  }

  lemma {:induction false} TokenWasIssued(c: Config, q: Sessions, ops: seq<Op>, t: string, r: Record)
    requires SessionsInv(q) && FreshRun(c, q, ops) && t !in q.store.sessionOf
    requires var s := Run(c, q, ops).store; t in s.sessionOf && s.Has(t) && r == s.Rec(t)
    ensures exists k: nat :: IssuedBy(c, ops, k, t, r)
    decreases |ops|
  {
    var q1 := Step(c, q, ops[0]);
    if t in q1.store.sessionOf {
      IssuedByFirst(c, q, ops, t, r);
    } else {
      StepKeepsInv(c, q, ops[0]);
      TokenWasIssued(c, q1, ops[1..], t, r);
      var k: nat :| IssuedBy(c, ops[1..], k, t, r);
      IssuedLater(c, ops, k, t, r);
    }
  }

  lemma IssuedLater(c: Config, ops: seq<Op>, k: nat, t: string, r: Record)
    requires ops != [] && IssuedBy(c, ops[1..], k, t, r)
    ensures IssuedBy(c, ops, k + 1, t, r)
  {
    assert ops[1..][k] == ops[k + 1];
  }

  /** Over every run, a token is accepted only up to the token expiry after it was issued. */
  lemma AcceptedWithinExpiry(c: Config, ops: seq<Op>, t: string, now: int)
    requires FreshRun(c, NoSessions, ops) && Accepts(Run(c, NoSessions, ops).store, t, now)
    ensures exists k: nat :: k < |ops| && Issues(ops[k], t) && now <= ops[k].at + c.tokenExpiry
  {
    var s := Run(c, NoSessions, ops).store;
    RunsReviveNothing(c, NoSessions, ops);
    assert KeyKnown(s, t);
    TokenWasIssued(c, NoSessions, ops, t, s.Rec(t));
    var k: nat :| IssuedBy(c, ops, k, t, s.Rec(t));
  }

  /** Over every run, the check of a refresh passes only for the refresh token of a login, and only up
      to the refresh expiry after that login. */
  lemma RefreshedWithinExpiry(c: Config, ops: seq<Op>, t: string, now: int)
    requires FreshRun(c, NoSessions, ops) && CanRefresh(c, Run(c, NoSessions, ops).store, t, now)
    ensures exists k: nat :: k < |ops| && Issues(ops[k], t) && now <= ops[k].at + c.refreshExpiry
  {
    var s := Run(c, NoSessions, ops).store;
    RunsReviveNothing(c, NoSessions, ops);
    assert KeyKnown(s, t);
    TokenWasIssued(c, NoSessions, ops, t, s.Rec(t));
    var k: nat :| IssuedBy(c, ops, k, t, s.Rec(t));
  }

  /** Right after a login, both its tokens are accepted up to the token expiry, and the refresh token
      can be exchanged up to the refresh expiry. */
  lemma LoginIsUsable(c: Config, s: Store, user: UserInfo, at: int, access: string, refresh: string, now: int)
    requires Inv(s) && NewToken(s, access) && NewToken(s, refresh) && access != refresh
    ensures var s' := Login(c, s, user, at, access, refresh);
            && (Accepts(s', access, now) <==> now <= at + c.tokenExpiry)
            && (Accepts(s', refresh, now) <==> c.refreshable && now <= at + c.tokenExpiry)
            && (CanRefresh(c, s', refresh, now) <==> c.refreshable && now <= at + c.refreshExpiry)
  {
    assert refresh in s.keys ==> KeyKnown(s, refresh);
  }

  /** A clean-up is not noticed by a token that is not revoked and whose time is not up. */
  lemma CleanupKeepsUsable(c: Config, s: Store, swept: int, t: string, now: int)
    requires s.Has(t) && !s.Rec(t).revoked && swept <= s.Rec(t).expiresAt + c.refreshExpiry
    ensures Cleaned(c, s, swept).Has(t) && Cleaned(c, s, swept).Rec(t) == s.Rec(t)
    ensures Accepts(Cleaned(c, s, swept), t, now) <==> Accepts(s, t, now)
    ensures CanRefresh(c, Cleaned(c, s, swept), t, now) <==> CanRefresh(c, s, t, now)
  {
  }

  /** The session's first token and its user. */
  predicate OpenedWith(s: Store, session: nat, access: string, user: UserInfo) {
    session < |s.roots| && s.roots[session] == access && access in s.records && s.records[access].user == user
  }

  lemma OpenedAfter(s: Store, s': Store, session: nat, access: string, user: UserInfo)
    requires NothingRevived(s, s') && OpenedWith(s, session, access, user)
    ensures OpenedWith(s', session, access, user)
  {
  }

  lemma OpenedBefore(s: Store, s': Store, session: nat, access: string, user: UserInfo)
    requires NothingRevived(s, s') && RootKnown(s, session) && OpenedWith(s', session, access, user)
    ensures OpenedWith(s, session, access, user)
  {
  }

  lemma LoginOpens(c: Config, q: Sessions, op: Op)
    requires SessionsInv(q) && Fresh(q, op) && op.LoginOp?
    ensures var s' := Step(c, q, op).store;
            op.access in s'.sessionOf && OpenedWith(s', s'.sessionOf[op.access], op.access, op.user)
  {
  }

  lemma {:induction false} LoginIsRoot(c: Config, q: Sessions, ops: seq<Op>, k: nat)
    requires SessionsInv(q) && FreshRun(c, q, ops) && k < |ops| && ops[k].LoginOp?
    ensures var s := Run(c, q, ops).store;
            && ops[k].access in s.sessionOf
            && OpenedWith(s, s.sessionOf[ops[k].access], ops[k].access, ops[k].user)
    decreases |ops|
  {
    var q1 := Step(c, q, ops[0]);
    StepKeepsInv(c, q, ops[0]);
    if k == 0 {
      LoginOpens(c, q, ops[0]);
      RunsReviveNothing(c, q1, ops[1..]);
      OpenedAfter(q1.store, Run(c, q, ops).store, q1.store.sessionOf[ops[0].access], ops[0].access, ops[0].user);
    } else {
      assert ops[1..][k - 1] == ops[k];
      LoginIsRoot(c, q1, ops[1..], k - 1);
    }
  }

  lemma {:induction false} RootIsLogin(c: Config, q: Sessions, ops: seq<Op>, session: nat)
    requires SessionsInv(q) && FreshRun(c, q, ops) && |q.store.roots| <= session < |Run(c, q, ops).store.roots|
    ensures exists k: nat ::
              k < |ops| && ops[k].LoginOp? && ops[k].access == Run(c, q, ops).store.roots[session]
    decreases |ops|
  {
    var q1 := Step(c, q, ops[0]);
    StepKeepsInv(c, q, ops[0]);
    RunsReviveNothing(c, q1, ops[1..]);
    if session < |q1.store.roots| {
      RootsOfStep(c, q, ops[0]);
    } else {
      RootIsLogin(c, q1, ops[1..], session);
      var k: nat :| k < |ops[1..]| && ops[1..][k].LoginOp?
                    && ops[1..][k].access == Run(c, q, ops).store.roots[session];
      assert ops[k + 1] == ops[1..][k];
    }
  }

  lemma RootsOfStep(c: Config, q: Sessions, op: Op)
    requires SessionsInv(q) && Fresh(q, op)
    ensures Step(c, q, op).store.roots == q.store.roots + (if op.LoginOp? then [op.access] else [])
  {
    assert q.store.roots + [] == q.store.roots;
    if op.RefreshCommit? && InFlight(q, op.call) {
      CommittedShape(c, q.store, q.refreshing[op.call], op.at, op.access);
    }
    if op.RevokeOp? && q.store.Has(op.token) {
      RevokedRecord(q.store, op.token, q.store.keys[op.token]);
    }
  }

  lemma SessionOpenedByStep(c: Config, q: Sessions, op: Op, session: nat, access: string, user: UserInfo)
    requires SessionsInv(q) && Fresh(q, op) && OpenedWith(Step(c, q, op).store, session, access, user)
    ensures OpenedWith(q.store, session, access, user) || (op.LoginOp? && op.access == access && op.user == user)
  {
    RootsOfStep(c, q, op);
    if session < |q.store.roots| {
      StepKeepsInv(c, q, op);
      OpenedBefore(q.store, Step(c, q, op).store, session, access, user);
    }
  }

  /** Over every run, a token is accepted with the user of the login that opened its session, also
      after refreshes: such a login is in the run, and no other one has that session. */
  lemma AcceptedAsLoginUser(c: Config, ops: seq<Op>, t: string, now: int)
    requires FreshRun(c, NoSessions, ops) && Accepts(Run(c, NoSessions, ops).store, t, now)
    ensures var s := Run(c, NoSessions, ops).store;
            && t in s.sessionOf
            && (exists k: nat :: k < |ops| && ops[k].LoginOp? && BelongsTo(s, ops[k].access, s.sessionOf[t]))
            && (forall k: nat :: k < |ops| && ops[k].LoginOp? && BelongsTo(s, ops[k].access, s.sessionOf[t]) ==>
                  s.Rec(t).user == ops[k].user)
  {
    var s := Run(c, NoSessions, ops).store;
    RunsReviveNothing(c, NoSessions, ops);
    assert KeyKnown(s, t);
    RootIsLogin(c, NoSessions, ops, s.sessionOf[t]);
    forall k: nat | k < |ops| && ops[k].LoginOp?
      ensures BelongsTo(s, ops[k].access, s.sessionOf[t]) ==> s.Rec(t).user == ops[k].user
      ensures ops[k].access == s.roots[s.sessionOf[t]] ==> BelongsTo(s, ops[k].access, s.sessionOf[t])
    {
      LoginIsRoot(c, NoSessions, ops, k);
    }
  }

  // ---------------------------------------------------------------------------------------
  // When a revocation closes its session for good
  // ---------------------------------------------------------------------------------------

  /** No stored token of the session is left unrevoked. */
  ghost predicate Ended(s: Store, session: nat) {
    forall t :: t in s.keys && s.Has(t) && BelongsTo(s, t, session) ==> s.Rec(t).revoked
  }

  /** No token of the session is accepted at any instant, whether or not it has come or gone. */
  ghost predicate NeverAccepted(s: Store, session: nat) {
    forall t, at :: BelongsTo(s, t, session) ==> !Accepts(s, t, at)
  }

  lemma EndedIsNeverAccepted(s: Store, session: nat)
    ensures Ended(s, session) <==> NeverAccepted(s, session)
  {
    if t :| t in s.keys && s.Has(t) && BelongsTo(s, t, session) && !s.Rec(t).revoked {
      assert Accepts(s, t, s.Rec(t).expiresAt);
    }
  }

  predicate Refreshing(q: Sessions, call: nat, session: nat) {
    InFlight(q, call) && q.store.records[q.refreshing[call].name].session == session
  }

  ghost predicate Quiet(q: Sessions, session: nat) {
    forall call :: call in q.refreshing ==> !Refreshing(q, call, session)
  }

  /** No token of the session, handed out by now or ever, is accepted from here on. */
  ghost predicate ClosedForGood(c: Config, q: Sessions, session: nat) {
    forall ops :: FreshRun(c, q, ops) ==> NeverAccepted(Run(c, q, ops).store, session)
  }

  lemma EndedStaysEnded(s: Store, s': Store, session: nat)
    requires Inv(s) && Inv(s') && NothingRevived(s, s') && Ended(s, session)
    requires forall t :: t in s'.keys && t !in s.sessionOf ==> !BelongsTo(s', t, session)
    ensures Ended(s', session)
  {
    forall t | t in s'.keys && s'.Has(t) && BelongsTo(s', t, session)
      ensures s'.Rec(t).revoked
    {
      assert KeyKnown(s, t);
    }
  }

  /** Only a commit hands out a token of an older session. */
  lemma NewTokensOfStep(c: Config, q: Sessions, op: Op, t: string)
    requires SessionsInv(q) && Fresh(q, op)
    requires t in Step(c, q, op).store.sessionOf && t !in q.store.sessionOf
    ensures var session := Step(c, q, op).store.sessionOf[t];
            if op.RefreshCommit? then Refreshing(q, op.call, session) else session == |q.store.roots|
  {
    var s := q.store;
    if op.RefreshCommit? && InFlight(q, op.call) {
      CommittedShape(c, s, q.refreshing[op.call], op.at, op.access);
    }
    if op.RevokeOp? && s.Has(op.token) {
      RevokedRecord(s, op.token, s.keys[op.token]);
    }
  }

  lemma PendingKeepsSession(s: Store, s': Store, p: Pending)
    requires PendingKnown(s, p) && NothingRevived(s, s')
    ensures p.name in s'.records && s'.records[p.name].session == s.records[p.name].session
  {
  }

  lemma CheckIsOfLiveSession(c: Config, s: Store, refreshToken: string, at: int, session: nat)
    requires Inv(s) && CanRefresh(c, s, refreshToken, at) && Ended(s, session)
    ensures s.Rec(refreshToken).session != session
  {
    assert KeyKnown(s, refreshToken);
  }

  lemma StepKeepsQuiet(c: Config, q: Sessions, op: Op, session: nat)
    requires SessionsInv(q) && Fresh(q, op) && Ended(q.store, session) && Quiet(q, session)
    ensures Quiet(Step(c, q, op), session)
  {
    if op.RefreshCheck? {
      if CanRefresh(c, q.store, op.refreshToken, op.at) {
        CheckIsOfLiveSession(c, q.store, op.refreshToken, op.at, session);
      }
    } else {
      StepKeepsInv(c, q, op);
      forall call | call in Step(c, q, op).refreshing
        ensures !Refreshing(Step(c, q, op), call, session)
      {
        assert !Refreshing(q, call, session);
        PendingKeepsSession(q.store, Step(c, q, op).store, q.refreshing[call]);
      }
    }
  }

  lemma StepKeepsClosed(c: Config, q: Sessions, op: Op, session: nat)
    requires SessionsInv(q) && Fresh(q, op) && session < |q.store.roots|
    requires Ended(q.store, session) && Quiet(q, session)
    ensures Ended(Step(c, q, op).store, session) && Quiet(Step(c, q, op), session)
    ensures forall t :: BelongsTo(Step(c, q, op).store, t, session) ==> BelongsTo(q.store, t, session)
  {
    var s' := Step(c, q, op).store;
    StepKeepsInv(c, q, op);
    StepKeepsQuiet(c, q, op, session);
    forall t | BelongsTo(s', t, session)
      ensures BelongsTo(q.store, t, session)
    {
      if t !in q.store.sessionOf {
        NewTokensOfStep(c, q, op, t);
      }
    }
    EndedStaysEnded(q.store, s', session);
  }

  lemma {:induction false} EndedAndQuietIsClosed(c: Config, q: Sessions, ops: seq<Op>, session: nat)
    requires SessionsInv(q) && FreshRun(c, q, ops) && session < |q.store.roots|
    requires Ended(q.store, session) && Quiet(q, session)
    ensures NeverAccepted(Run(c, q, ops).store, session)
    decreases |ops|
  {
    if ops == [] {
      EndedIsNeverAccepted(q.store, session);
    } else {
      StepKeepsClosed(c, q, ops[0], session);
      StepKeepsInv(c, q, ops[0]);
      EndedAndQuietIsClosed(c, Step(c, q, ops[0]), ops[1..], session);
    }
  }

  function Longer(n: nat): string { if n == 0 then "." else "." + Longer(n - 1) }

  lemma {:induction false} LongerIsLonger(n: nat)
    ensures |Longer(n)| == n + 1
  {
    if n > 0 {
      LongerIsLonger(n - 1);
    }
  }

  predicate NoneLonger(tokens: set<string>, n: nat) { forall t :: t in tokens ==> |t| <= n }

  lemma {:induction false} LengthsBounded(tokens: set<string>)
    ensures exists n: nat :: NoneLonger(tokens, n)
    decreases |tokens|
  {
    if tokens == {} {
      assert NoneLonger(tokens, 0);
    } else {
      var t :| t in tokens;
      LengthsBounded(tokens - {t});
      var n: nat :| NoneLonger(tokens - {t}, n);
      assert forall u :: u in tokens ==> u == t || u in tokens - {t};
      assert NoneLonger(tokens, if |t| <= n then n else |t|);
    }
  }

  lemma SomeTokenIsNew(s: Store)
    ensures exists t :: NewToken(s, t)
  {
    LengthsBounded(s.sessionOf.Keys);
    var n: nat :| NoneLonger(s.sessionOf.Keys, n);
    LongerIsLonger(n);
    assert NewToken(s, Longer(n));
  }

  /** A refresh in flight reopens its session, whatever has been revoked since its check: the token
      of its commit is accepted for as long as any new token is. */
  lemma CommitReopens(c: Config, q: Sessions, call: nat, at: int, access: string, session: nat)
    requires SessionsInv(q) && Refreshing(q, call, session) && NewToken(q.store, access)
    ensures var s' := Step(c, q, RefreshCommit(call, at, access)).store;
            BelongsTo(s', access, session) && Accepts(s', access, at + c.tokenExpiry)
  {
    CommittedKeepsInv(c, q.store, q.refreshing[call], at, access);
  }

  lemma RefreshingIsNotClosed(c: Config, q: Sessions, call: nat, session: nat)
    requires SessionsInv(q) && Refreshing(q, call, session)
    ensures !ClosedForGood(c, q, session)
  {
    SomeTokenIsNew(q.store);
    var access :| NewToken(q.store, access);
    var ops := [RefreshCommit(call, 0, access)];
    CommitReopens(c, q, call, 0, access, session);
    FirstOf(c, q, ops[0], []);
    FirstOf(c, Step(c, q, ops[0]), ops[0], []);
    assert ops == [ops[0]] + [];
    assert NeverAccepted(Run(c, q, ops).store, session) ==> !Accepts(Run(c, q, ops).store, access, c.tokenExpiry);
  }

  /** From any reachable state, a session is closed for good exactly when none of its stored tokens
      is unrevoked and none of its refreshes is in flight. */
  lemma {:induction false} ClosedForGoodIff(c: Config, q: Sessions, session: nat)
    requires SessionsInv(q) && session < |q.store.roots|
    ensures ClosedForGood(c, q, session) <==> Ended(q.store, session) && Quiet(q, session)
  {
    if Ended(q.store, session) && Quiet(q, session) {
      forall ops | FreshRun(c, q, ops)
        ensures NeverAccepted(Run(c, q, ops).store, session)
      {
        EndedAndQuietIsClosed(c, q, ops, session);
      }
    } else if Quiet(q, session) {
      EndedIsNeverAccepted(q.store, session);
      assert FreshRun(c, q, []) && Run(c, q, []) == q;
    } else {
      var call :| call in q.refreshing && Refreshing(q, call, session);
      RefreshingIsNotClosed(c, q, call, session);
    }
  }

  predicate Live(s: Store, t: string) { s.Has(t) && !s.Rec(t).revoked }

  /** The revocation of a token gets at the session's current access token: the token's record is
      the login's, or it is the current one itself; or there is nothing left to get at. */
  predicate GetsAtCurrent(s: Store, token: string)
    requires KeyKnown(s, token)
  {
    var current := Current(s, s.Rec(token).session);
    s.Rec(token).root || current == token || !Live(s, current)
  }

  lemma RevokeEndsIff(s: Store, token: string)
    requires Inv(s) && token in s.keys
    ensures KeyKnown(s, token)
    ensures Ended(Revoked(s, token), s.sessionOf[token]) <==> GetsAtCurrent(s, token)
  {
    assert KeyKnown(s, token);
    var s', session := Revoked(s, token), s.sessionOf[token];
    var current := Current(s, session);
    assert current in s.keys ==> KeyKnown(s, current);
    RevokedRecord(s, token, s.keys[token]);
    forall t | t in s.keys && s.Has(t) && BelongsTo(s, t, session)
      ensures s'.Rec(t).revoked <==> s.Rec(t).revoked || GetsAtCurrent(s, token)
    {
      assert KeyKnown(s, t);
      RevokedRecord(s, token, s.keys[t]);
    }
  }

  lemma SameRefreshes(q: Sessions, q': Sessions, session: nat)
    requires SessionsInv(q) && NothingRevived(q.store, q'.store) && q'.refreshing == q.refreshing
    ensures Quiet(q, session) <==> Quiet(q', session)
  {
    forall call | call in q.refreshing
      ensures Refreshing(q, call, session) <==> Refreshing(q', call, session)
    {
      PendingKeepsSession(q.store, q'.store, q.refreshing[call]);
    }
  }

  lemma RevokeClosesFromIff(c: Config, q: Sessions, token: string)
    requires SessionsInv(q) && token in q.store.keys
    ensures KeyKnown(q.store, token)
    ensures var session := q.store.sessionOf[token];
            ClosedForGood(c, q.(store := Revoked(q.store, token)), session)
            <==> GetsAtCurrent(q.store, token) && Quiet(q, session)
  {
    assert KeyKnown(q.store, token);
    var q', session := Step(c, q, RevokeOp(token)), q.store.sessionOf[token];
    StepKeepsInv(c, q, RevokeOp(token));
    RevokeEndsIff(q.store, token);
    ClosedForGoodIff(c, q', session);
    SameRefreshes(q, q', session);
  }

  /** A revocation closes its session for good exactly when it gets at the current access token and
      no refresh of the session is in flight. */
  lemma {:induction false} RevokeClosesIff(c: Config, before: seq<Op>, token: string)
    requires FreshRun(c, NoSessions, before) && token in Run(c, NoSessions, before).store.keys
    ensures var q := Run(c, NoSessions, before);
            && KeyKnown(q.store, token)
            && var session := q.store.sessionOf[token];
               ClosedForGood(c, q.(store := Revoked(q.store, token)), session)
               <==> GetsAtCurrent(q.store, token) && Quiet(q, session)
  {
    RunsReviveNothing(c, NoSessions, before);
    RevokeClosesFromIff(c, Run(c, NoSessions, before), token);
  }

  /** In particular, revoking a token that has not been revoked, with no refresh in flight, ends its
      session: the exception is a token superseded by overlapping refreshes. */
  lemma RevokingLiveTokenCloses(c: Config, before: seq<Op>, token: string)
    requires FreshRun(c, NoSessions, before) && Live(Run(c, NoSessions, before).store, token)
    requires Quiet(Run(c, NoSessions, before), Run(c, NoSessions, before).store.Rec(token).session)
    ensures var q := Run(c, NoSessions, before);
            ClosedForGood(c, q.(store := Revoked(q.store, token)), q.store.Rec(token).session)
  {
    RunsReviveNothing(c, NoSessions, before);
    assert KeyKnown(Run(c, NoSessions, before).store, token);
    RevokeClosesIff(c, before, token);
  }

  ghost predicate Spent(s: Store, refreshToken: string) {
    refreshToken in s.sessionOf && (s.Has(refreshToken) ==> s.Rec(refreshToken).revoked)
  }

  lemma SpentStaysSpent(s: Store, s': Store, refreshToken: string)
    requires Inv(s) && NothingRevived(s, s') && Spent(s, refreshToken)
    ensures Spent(s', refreshToken)
  {
    assert refreshToken in s.keys ==> KeyKnown(s, refreshToken);
  }

  lemma CommitSpends(c: Config, s: Store, p: Pending, now: int, access: string)
    requires Inv(s) && PendingKnown(s, p) && NewToken(s, access)
    ensures Spent(Committed(c, s, p, now, access), p.refreshToken)
  {
    assert RootKnown(s, s.records[p.name].session);
    CommittedShape(c, s, p, now, access);
    CommittedKeepsInv(c, s, p, now, access);
  }

  /** Once a refresh has been committed, no later check of its refresh token passes, and the refresh
      token is not accepted.  The source says that a refresh keeps it, but it shares its record
      with the access token that the refresh revokes. */
  lemma RefreshTokenWorksOnce(
    c: Config, before: seq<Op>, call: nat, now: int, access: string, after: seq<Op>, later: int)
    requires FreshRun(c, NoSessions, before) && call in Run(c, NoSessions, before).refreshing
    requires NewToken(Run(c, NoSessions, before).store, access)
    requires FreshRun(c, Step(c, Run(c, NoSessions, before), RefreshCommit(call, now, access)), after)
    ensures var q := Run(c, NoSessions, before);
            var s' := Run(c, Step(c, q, RefreshCommit(call, now, access)), after).store;
            var refreshToken := q.refreshing[call].refreshToken;
            !CanRefresh(c, s', refreshToken, later) && !Accepts(s', refreshToken, later)
  {
    var q := Run(c, NoSessions, before);
    RunsReviveNothing(c, NoSessions, before);
    CommitSpends(c, q.store, q.refreshing[call], now, access);
    var q1 := Step(c, q, RefreshCommit(call, now, access));
    StepKeepsInv(c, q, RefreshCommit(call, now, access));
    RunsReviveNothing(c, q1, after);
    SpentStaysSpent(q1.store, Run(c, q1, after).store, q.refreshing[call].refreshToken);
  }

  // ---------------------------------------------------------------------------------------
  // The two ways in which a revocation fails to close its session
  // ---------------------------------------------------------------------------------------

  lemma FirstOf(c: Config, q: Sessions, op: Op, rest: seq<Op>)
    ensures Run(c, q, [op] + rest) == Run(c, Step(c, q, op), rest)
    ensures FreshRun(c, q, [op] + rest) <==> Fresh(q, op) && FreshRun(c, Step(c, q, op), rest)
    ensures Run(c, q, []) == q && FreshRun(c, q, [])
  {
    assert ([op] + rest)[1..] == rest;
  }

  /** Four tokens of one session, as the generator makes them. */
  datatype Tokens = Tokens(access: string, refresh: string, second: string, third: string)
  {
    predicate AllDifferent() {
      && "" !in [access, refresh, second, third]
      && access !in [refresh, second, third] && refresh !in [second, third] && second != third
    }
  }

  function LoginOf(user: UserInfo, t: Tokens): Op { LoginOp(user, 0, t.access, t.refresh) }

  /** The state after a login. */
  function LoggedIn(c: Config, user: UserInfo, t: Tokens): Store {
    Store(map[t.access := t.access, t.refresh := t.access],
          map[t.access := Record(t.access, t.refresh, user, 0, c.tokenExpiry, false, 0, true)],
          map[t.access := 0, t.refresh := 0], [t.access])
  }

  lemma ReachLoggedIn(c: Config, user: UserInfo, t: Tokens)
    requires c.refreshable && t.AllDifferent()
    ensures Fresh(NoSessions, LoginOf(user, t))
    ensures Step(c, NoSessions, LoginOf(user, t)) == Sessions(LoggedIn(c, user, t), map[])
  {
  }

  lemma LoggedInInv(c: Config, user: UserInfo, t: Tokens)
    requires c.refreshable && t.AllDifferent()
    ensures SessionsInv(Sessions(LoggedIn(c, user, t), map[]))
  {
    ReachLoggedIn(c, user, t);
    StepKeepsInv(c, NoSessions, LoginOf(user, t));
  }

  /** From a login, through one or two checks of its refresh token, to the operations after them. */
  lemma AfterChecks(c: Config, user: UserInfo, t: Tokens, rest: seq<Op>)
    requires c.refreshable && c.refreshExpiry >= 0 && t.AllDifferent()
    ensures var p, s := Pending(t.refresh, t.access), LoggedIn(c, user, t);
            var check0, check1 := RefreshCheck(0, t.refresh, 0), RefreshCheck(1, t.refresh, 0);
            var once, twice := Sessions(s, map[0 := p]), Sessions(s, map[0 := p, 1 := p]);
            && SessionsInv(once) && SessionsInv(twice)
            && Run(c, NoSessions, [LoginOf(user, t)] + ([check0] + rest)) == Run(c, once, rest)
            && (FreshRun(c, NoSessions, [LoginOf(user, t)] + ([check0] + rest)) <==> FreshRun(c, once, rest))
            && Run(c, once, [check1] + rest) == Run(c, twice, rest)
            && (FreshRun(c, once, [check1] + rest) <==> FreshRun(c, twice, rest))
  {
    var q := Sessions(LoggedIn(c, user, t), map[]);
    var check0, check1 := RefreshCheck(0, t.refresh, 0), RefreshCheck(1, t.refresh, 0);
    ReachLoggedIn(c, user, t);
    LoggedInInv(c, user, t);
    FirstOf(c, NoSessions, LoginOf(user, t), [check0] + rest);
    FirstOf(c, q, check0, rest);
    StepKeepsInv(c, q, check0);
    FirstOf(c, Step(c, q, check0), check1, rest);
    StepKeepsInv(c, Step(c, q, check0), check1);
  }

  lemma BothOf(c: Config, q: Sessions, op1: Op, op2: Op)
    ensures Run(c, q, [op1, op2]) == Step(c, Step(c, q, op1), op2)
    ensures FreshRun(c, q, [op1, op2]) <==> Fresh(q, op1) && Fresh(Step(c, q, op1), op2)
  {
    var q1 := Step(c, q, op1);
    FirstOf(c, q, op1, [op2]);
    FirstOf(c, q1, op2, []);
    FirstOf(c, Step(c, q1, op2), op2, []);
  }

  /** The check of a refresh, a revocation that succeeds, the commit: the session is open again, and
      the new token is accepted for as long as any. */
  lemma RevokedDuringRefresh(c: Config, user: UserInfo, t: Tokens)
    requires c.refreshable && c.refreshExpiry >= 0 && t.AllDifferent()
    ensures var before := [LoginOf(user, t)] + ([RefreshCheck(0, t.refresh, 0)] + []);
            var after := [RevokeOp(t.access), RefreshCommit(0, 0, t.second)];
            var q := Run(c, NoSessions, before);
            var s := Run(c, q, after).store;
            && FreshRun(c, NoSessions, before) && FreshRun(c, q, after) && q.store.Has(t.access)
            && BelongsTo(s, t.access, 0) && BelongsTo(s, t.second, 0) && Accepts(s, t.second, c.tokenExpiry)
  {
    AfterChecks(c, user, t, []);
    var q := Sessions(LoggedIn(c, user, t), map[0 := Pending(t.refresh, t.access)]);
    FirstOf(c, q, RevokeOp(t.access), []);
    var q1 := Step(c, q, RevokeOp(t.access));
    StepKeepsInv(c, q, RevokeOp(t.access));
    RevokedRecord(q.store, t.access, t.access);
    BothOf(c, q, RevokeOp(t.access), RefreshCommit(0, 0, t.second));
    CommittedShape(c, q1.store, q.refreshing[0], 0, t.second);
    CommitReopens(c, q1, 0, 0, t.second, 0);
  }

  predicate OwnKey(s: Store, t: string) {
    t in s.keys && s.keys[t] == t && t in s.records && !s.records[t].root
  }

  /** A commit leaves its own token with a record of its own, and other such tokens with theirs. */
  ghost predicate OneMore(c: Config, q: Sessions, call: nat, access: string, q': Sessions) {
    && SessionsInv(q') && q'.refreshing == q.refreshing - {call} && NothingRevived(q.store, q'.store)
    && (forall t :: OwnKey(q.store, t) ==> OwnKey(q'.store, t))
    && call in q.refreshing && q.refreshing[call].name in q.store.records
    && q'.store.sessionOf == q.store.sessionOf[access := q.store.records[q.refreshing[call].name].session]
    && OwnKey(q'.store, access) && q'.store.records[access].expiresAt == c.tokenExpiry
    && !q'.store.records[access].revoked
  }

  lemma CommitIsOneMore(c: Config, q: Sessions, call: nat, access: string)
    requires SessionsInv(q) && call in q.refreshing && NewToken(q.store, access)
    ensures OneMore(c, q, call, access, Step(c, q, RefreshCommit(call, 0, access)))
  {
    StepKeepsInv(c, q, RefreshCommit(call, 0, access));
    CommittedShape(c, q.store, q.refreshing[call], 0, access);
  }

  /** Both tokens are stored with records of their own, and the second is not revoked. */
  ghost predicate BothHandedOut(c: Config, q: Sessions, first: string, second: string, session: nat) {
    && SessionsInv(q) && q.refreshing == map[] && OwnKey(q.store, first) && OwnKey(q.store, second)
    && BelongsTo(q.store, first, session) && BelongsTo(q.store, second, session)
    && q.store.records[second].expiresAt == c.tokenExpiry && !q.store.records[second].revoked
  }

  lemma TwoMore(c: Config, q: Sessions, q1: Sessions, q2: Sessions, p: Pending, first: string, second: string)
    requires SessionsInv(q) && (forall call :: call in q.refreshing <==> call == 0 || call == 1)
    requires q.refreshing[0] == q.refreshing[1] == p && first != second
    requires OneMore(c, q, 0, first, q1) && OneMore(c, q1, 1, second, q2)
    ensures BothHandedOut(c, q2, first, second, q.store.records[p.name].session)
  {
    PendingKeepsSession(q.store, q1.store, p);
  }

  lemma CommitTwice(c: Config, q: Sessions, p: Pending, first: string, second: string)
    requires SessionsInv(q) && (forall call :: call in q.refreshing <==> call == 0 || call == 1)
    requires q.refreshing[0] == q.refreshing[1] == p && p.name in q.store.records
    requires NewToken(q.store, first) && NewToken(q.store, second) && first != second
    ensures var commit0, commit1 := RefreshCommit(0, 0, first), RefreshCommit(1, 0, second);
            var q1 := Step(c, q, commit0);
            && Fresh(q, commit0) && Fresh(q1, commit1)
            && BothHandedOut(c, Step(c, q1, commit1), first, second, q.store.records[p.name].session)
  {
    CommitIsOneMore(c, q, 0, first);
    var q1 := Step(c, q, RefreshCommit(0, 0, first));
    NewAfterOneMore(c, q, 0, first, q1, second);
    CommitIsOneMore(c, q1, 1, second);
    TwoMore(c, q, q1, Step(c, q1, RefreshCommit(1, 0, second)), p, first, second);
  }

  lemma NewAfterOneMore(c: Config, q: Sessions, call: nat, access: string, q': Sessions, t: string)
    requires OneMore(c, q, call, access, q') && NewToken(q.store, t) && t != access
    ensures SessionsInv(q') && NewToken(q'.store, t)
    ensures forall other :: other in q'.refreshing <==> other in q.refreshing && other != call
  {
  }

  lemma SupersededMissesCurrent(s: Store, token: string, current: string)
    requires Inv(s) && OwnKey(s, token) && OwnKey(s, current) && current != token
    requires Live(s, current) && s.sessionOf[current] == s.sessionOf[token]
    ensures s.Has(token) && Accepts(Revoked(s, token), current, s.Rec(current).expiresAt)
  {
  }

  /** Two refreshes whose checks both pass hand out two tokens; revoking the first of them, with
      nothing in flight, leaves the second accepted for as long as before. */
  lemma RevokedAfterTwoRefreshes(c: Config, user: UserInfo, t: Tokens)
    requires c.refreshable && c.refreshExpiry >= 0 && t.AllDifferent()
    ensures var commits := [RefreshCommit(0, 0, t.second), RefreshCommit(1, 0, t.third)];
            var checks := [RefreshCheck(0, t.refresh, 0)] + ([RefreshCheck(1, t.refresh, 0)] + commits);
            var before := [LoginOf(user, t)] + checks;
            var q := Run(c, NoSessions, before);
            && FreshRun(c, NoSessions, before) && q.refreshing == map[] && q.store.Has(t.second)
            && BelongsTo(q.store, t.second, 0) && BelongsTo(q.store, t.third, 0)
            && Accepts(Revoked(q.store, t.second), t.third, c.tokenExpiry)
  {
    var commit0, commit1 := RefreshCommit(0, 0, t.second), RefreshCommit(1, 0, t.third);
    AfterChecks(c, user, t, [RefreshCheck(1, t.refresh, 0)] + [commit0, commit1]);
    AfterChecks(c, user, t, [commit0, commit1]);
    var p := Pending(t.refresh, t.access);
    var q := Sessions(LoggedIn(c, user, t), map[0 := p, 1 := p]);
    BothOf(c, q, commit0, commit1);
    CommitTwice(c, q, p, t.second, t.third);
    SupersededMissesCurrent(Step(c, Step(c, q, commit0), commit1).store, t.second, t.third);
  }

  // ---------------------------------------------------------------------------------------
  // The provider
  // ---------------------------------------------------------------------------------------

  class TokenInfo {
    var Token: string
    var Revoked: bool
    const RefreshToken: string
    const User: UserInfo
    const IssuedAt: int
    const ExpiresAt: int
    ghost const name: string

    constructor (token: string, refreshToken: string, user: UserInfo, issuedAt: int, expiresAt: int)
      ensures Token == token && !Revoked && RefreshToken == refreshToken && User == user
      ensures IssuedAt == issuedAt && ExpiresAt == expiresAt && name == token
    {
      Token, Revoked, RefreshToken, User := token, false, refreshToken, user;
      IssuedAt, ExpiresAt, name := issuedAt, expiresAt, token;
    }

    ghost predicate Shows(r: Record)
      reads this
    {
      && Token == r.token && Revoked == r.revoked && RefreshToken == r.refreshToken && User == r.user
      && IssuedAt == r.issuedAt && ExpiresAt == r.expiresAt
    }
  }

  class BearerTokenProvider {
    var tokens: map<string, TokenInfo>
    const config: Config

    /** The store this provider holds, and the records behind its names (also those no longer stored). */
    ghost var store: Store
    ghost var recordOf: map<string, TokenInfo>
    ghost var Repr: set<TokenInfo>

    /** Keys that share a record in the store share a reference here, and no others do. */
    ghost predicate Represents()
      reads this, Repr
    {
      && (forall t :: t in tokens <==> t in store.keys)
      && (forall t :: t in tokens ==> store.keys[t] in recordOf && tokens[t] == recordOf[store.keys[t]])
      && (forall n :: n in recordOf ==> recordOf[n] in Repr && RecordShown(n))
    }

    ghost predicate RecordShown(n: string)
      requires n in recordOf
      reads this, recordOf[n]
    {
      && n in store.records && n in store.sessionOf
      && recordOf[n].name == n && recordOf[n].Shows(store.records[n])
    }

    ghost predicate Valid()
      reads this, Repr
    {
      Represents() && Inv(store)
    }

    constructor (config: Config)
      ensures Valid() && store == EmptyStore && this.config == config && Repr == {}
    {
      this.config := config;
      tokens, store, recordOf, Repr := map[], EmptyStore, map[], {};
    }

    function Validate(token: string, now: int): (r: Result<UserInfo, Error>)
      requires Represents()
      reads this, Repr
      ensures r.Success? <==> Accepts(store, token, now)
      ensures r.Success? ==> r.value == store.Rec(token).user
    {
      if token !in tokens then Failure(TokenInvalid)
      else if tokens[token].Revoked then Failure(TokenRevoked)
      else if now > tokens[token].ExpiresAt then Failure(TokenExpired)
      else Success(tokens[token].User)
    }

    /** Mark the record behind a key, if there is one, as revoked. */
    method MarkKey(token: string)
      requires Represents()
      modifies Repr, this`store
      ensures Represents() && store == MarkRevoked(old(store), token)
    {
      if token in tokens {
        assert RecordShown(store.keys[token]);
        tokens[token].Revoked := true;
      }
      store := MarkRevoked(store, token);
    }

    /** Store a new record under a new access token. */
    method AddRecord(access: string, info: TokenInfo, ghost record: Record)
      requires Represents() && NewToken(store, access) && info !in Repr && info.Shows(record) && info.name == access
      modifies this
      ensures Represents() && Repr == old(Repr) + {info} && tokens == old(tokens)[access := info]
      ensures store == WithRecord(old(store), access, record)
      ensures recordOf == old(recordOf)[access := info]
    {
      store := WithRecord(store, access, record);
      recordOf, Repr := recordOf[access := info], Repr + {info};
      tokens := tokens[access := info];
      forall n | n in recordOf
        ensures recordOf[n] in Repr && RecordShown(n)
      {
        assert n != access ==> n in old(recordOf) && old(RecordShown(n));
      }
    }

    /** Make a record that is stored under its own name also known under its refresh token, if it
        has one. */
    method AddKey(refreshToken: string, info: TokenInfo, ghost name: string, ghost session: nat)
      requires Represents() && name in recordOf && recordOf[name] == info
      modifies this`tokens, this`store
      ensures Represents()
      ensures store == if refreshToken != "" then WithKey(old(store), refreshToken, name, session) else old(store)
    {
      if refreshToken != "" {
        tokens := tokens[refreshToken := info];
        store := WithKey(store, refreshToken, name, session);
        assert forall n :: n in recordOf ==> old(RecordShown(n));
      }
    }

    method SetToken(info: TokenInfo, token: string, ghost name: string)
      requires Represents() && name in recordOf && recordOf[name] == info
      modifies info, this`store
      ensures Represents()
      ensures name in old(store).records && store == WithToken(old(store), name, token)
    {
      assert RecordShown(name);
      info.Token := token;
      store := WithToken(store, name, token);
      assert forall n :: n in recordOf ==> old(RecordShown(n));
    }

    method RemoveKey(token: string)
      requires Represents()
      modifies this`tokens, this`store
      ensures Represents() && store == old(store).(keys := old(store).keys - {token})
    {
      tokens := tokens - {token};
      store := store.(keys := store.keys - {token});
      assert forall n :: n in recordOf ==> old(RecordShown(n));
    }

    method Authenticate(req: AuthRequest, now: int, access: string, refresh: string)
      returns (r: Result<AuthResult, Error>)
      requires Valid() && NewToken(store, access) && NewToken(store, refresh) && access != refresh
      modifies this
      ensures Valid() && NothingRevived(old(store), store) && fresh(Repr - old(Repr))
      ensures match req
              case OtherType => r == Failure(InvalidCredentials) && store == old(store)
              case Bearer(token) =>
                && store == old(store) && (r.Success? <==> Accepts(store, token, now))
                && (r.Success? ==> r.value == AuthResult(token, "", store.Rec(token).user, store.Rec(token).issuedAt))
              case Basic(username, password) =>
                if username == "" || password == "" then r == Failure(InvalidCredentials) && store == old(store)
                else
                  var user := UserInfo("user-" + username, username);
                  && store == Login(config, old(store), user, now, access, refresh)
                  && r == Success(AuthResult(access, if config.refreshable then refresh else "", user, now))
    {
      match req
      case OtherType => return Failure(InvalidCredentials);
      case Bearer(token) =>
        var valid := Validate(token, now);
        if valid.Failure? {
          return Failure(valid.error);
        }
        return Success(AuthResult(token, "", valid.value, tokens[token].IssuedAt));
      case Basic(username, password) =>
        if username == "" || password == "" {
          return Failure(InvalidCredentials);
        }
        var user := UserInfo("user-" + username, username);
        var refreshToken := if config.refreshable then refresh else "";
        Issue(user, now, access, refreshToken);
        LoginKeepsInv(config, old(store), user, now, access, refresh);
        r := Success(AuthResult(access, refreshToken, user, now));
    }

    method Issue(user: UserInfo, now: int, access: string, refreshToken: string)
      requires Represents() && NewToken(store, access) && access != refreshToken
      modifies this
      ensures Represents() && fresh(Repr - old(Repr))
      ensures store == LoginWith(config, old(store), user, now, access, refreshToken)
    {
      ghost var session := |store.roots|;
      var info := NewRecord(access, refreshToken, user, now, session, true);
      AddKey(refreshToken, info, access, session);
    }

    method NewRecord(
      access: string, refreshToken: string, user: UserInfo, now: int, ghost session: nat, ghost root: bool)
      returns (info: TokenInfo)
      requires Represents() && NewToken(store, access)
      modifies this
      ensures Represents() && fresh(Repr - old(Repr))
      ensures access in recordOf && recordOf[access] == info
      ensures forall n :: n in old(recordOf) ==> n in recordOf && recordOf[n] == old(recordOf)[n]
      ensures store == WithRecord(old(store), access, Record(access, refreshToken, user, now, now + config.tokenExpiry,
                                                             false, session, root))
    {
      info := new TokenInfo(access, refreshToken, user, now, now + config.tokenExpiry);
      AddRecord(access, info,
                Record(access, refreshToken, user, now, now + config.tokenExpiry, false, session, root));
    }

    /** The first half of a refresh: the record is found under the read lock and looked at. */
    method CheckRefresh(refreshToken: string, now: int) returns (r: Result<TokenInfo, Error>, ghost p: Pending)
      requires Valid()
      ensures Valid() && unchanged(this) && unchanged(Repr)
      ensures r.Success? <==> CanRefresh(config, store, refreshToken, now)
      ensures r.Success? ==>
                && p == Pending(refreshToken, store.keys[refreshToken]) && PendingKnown(store, p)
                && p.name in recordOf && r.value == recordOf[p.name]
    {
      p := Pending("", "");
      if !config.refreshable {
        return Failure(InvalidCredentials), p;
      }
      if refreshToken !in tokens {
        return Failure(TokenInvalid), p;
      }
      var info := tokens[refreshToken];
      assert RecordShown(store.keys[refreshToken]);
      if info.RefreshToken != refreshToken {
        return Failure(TokenInvalid), p;
      }
      if info.Revoked {
        return Failure(TokenRevoked), p;
      }
      if now > info.IssuedAt + config.refreshExpiry {
        return Failure(TokenExpired), p;
      }
      assert KeyKnown(store, refreshToken);
      return Success(info), Pending(refreshToken, store.keys[refreshToken]);
    }

    /** The second half, under the write lock, on whatever the store has become. */
    method CommitRefresh(info: TokenInfo, refreshToken: string, now: int, access: string, ghost p: Pending)
      returns (r: AuthResult)
      requires Valid() && NewToken(store, access) && PendingKnown(store, p) && p.refreshToken == refreshToken
      requires p.name in recordOf && recordOf[p.name] == info
      modifies this, Repr
      ensures Valid() && NothingRevived(old(store), store) && fresh(Repr - old(Repr))
      ensures store == Committed(config, old(store), p, now, access)
      ensures r == AuthResult(access, refreshToken, old(store).records[p.name].user, now)
    {
      assert RecordShown(p.name) && RootKnown(store, store.records[p.name].session);
      Exchange(info, now, access, p);
      CommittedKeepsInv(config, old(store), p, now, access);
      r := AuthResult(access, refreshToken, info.User, now);
    }

    /** A refresh that nothing overlaps. */
    method Refresh(refreshToken: string, now: int, access: string) returns (r: Result<AuthResult, Error>)
      requires Valid() && NewToken(store, access)
      modifies this, Repr
      ensures Valid() && NothingRevived(old(store), store) && fresh(Repr - old(Repr))
      ensures r.Success? <==> CanRefresh(config, old(store), refreshToken, now)
      ensures CanRefresh(config, old(store), refreshToken, now) ==>
                && store == Committed(config, old(store), Pending(refreshToken, old(store).keys[refreshToken]),
                                      now, access)
                && r.value == AuthResult(access, refreshToken, old(store).Rec(refreshToken).user, now)
      ensures r.Failure? ==> store == old(store)
    {
      var checked, p := CheckRefresh(refreshToken, now);
      if checked.Failure? {
        return Failure(checked.error);
      }
      var result := CommitRefresh(checked.value, refreshToken, now, access, p);
      r := Success(result);
    }

    method Exchange(info: TokenInfo, now: int, access: string, ghost p: Pending)
      requires Represents() && NewToken(store, access) && PendingKnown(store, p)
      requires p.name in recordOf && recordOf[p.name] == info && access !in store.records
      requires access != p.name && store.records[p.name].token in store.sessionOf
      modifies this, Repr
      ensures Represents() && fresh(Repr - old(Repr))
      ensures store == Committed(config, old(store), p, now, access)
    {
      ghost var record := NewlyRefreshed(config, store, p, now, access);
      assert RecordShown(p.name);
      var _ := NewRecord(access, info.RefreshToken, info.User, now, record.session, false);
      assert store == WithRecord(old(store), access, record);
      Supersede(info, access, p.name);
    }

    /** Revoke the token that a record names, and let the record name another one. */
    method Supersede(info: TokenInfo, token: string, ghost name: string)
      requires Represents() && name in recordOf && recordOf[name] == info
      modifies Repr, this`store
      ensures Represents()
      ensures name in old(store).records && store == Superseded(old(store), name, token)
    {
      assert RecordShown(name);
      MarkKey(info.Token);
      SetToken(info, token, name);
    }

    method Revoke(token: string) returns (error: Option<Error>)
      requires Valid()
      modifies this`store, Repr
      ensures Valid() && NothingRevived(old(store), store)
      ensures error == if token in tokens then None else Some(TokenInvalid)
      ensures error.None? ==>
                && old(store).Has(token) && store == Revoked(old(store), token) && token in store.sessionOf
                && KeyKnown(old(store), token)
                && (Ended(store, store.sessionOf[token]) <==> GetsAtCurrent(old(store), token))
      ensures error.Some? ==> store == old(store)
    {
      if token !in tokens {
        return Some(TokenInvalid);
      }
      MarkAll(token);
      RevokedKeepsInv(old(store), token);
      RevokeEndsIff(old(store), token);
      error := None;
    }

    method MarkAll(token: string)
      requires Represents() && token in tokens
      modifies this`store, Repr
      ensures Represents() && store == Revoked(old(store), token)
    {
      var info := tokens[token];
      assert RecordShown(store.keys[token]);
      var refreshToken, own := info.RefreshToken, info.Token;
      MarkKey(token);
      MarkOther(refreshToken, token);
      MarkOther(own, token);
    }

    method MarkOther(other: string, token: string)
      requires Represents()
      modifies this`store, Repr
      ensures Represents()
      ensures store == if other != "" && other != token then MarkRevoked(old(store), other) else old(store)
    {
      if other != "" && other != token {
        MarkKey(other);
      }
    }

    method CleanupExpired(now: int)
      requires Valid()
      modifies this
      ensures Valid() && NothingRevived(old(store), store) && Repr == old(Repr)
      ensures store == Cleaned(config, old(store), now)
      ensures forall t :: old(store).Has(t) ==>
                (t in store.keys <==> !old(store).Rec(t).revoked
                                      && now <= old(store).Rec(t).expiresAt + config.refreshExpiry)
    {
      RemoveStale(now);
      CleanedKeepsInv(config, old(store), now);
    }

    method RemoveStale(now: int)
      requires Represents()
      modifies this`tokens, this`store
      ensures Represents() && store == Cleaned(config, old(store), now)
    {
      var pending := tokens.Keys;
      ghost var s := store;
      while pending != {}
        invariant pending <= tokens.Keys && Represents()
        invariant store.(keys := map[]) == s.(keys := map[])
        invariant forall t :: t in store.keys ==> t in s.keys && store.keys[t] == s.keys[t]
        invariant forall t :: t in s.keys ==>
                    (t in store.keys <==> t in pending || !(s.Has(t) && Stale(config, s.Rec(t), now)))
      {
        var token :| token in pending;
        var info := tokens[token];
        assert RecordShown(store.keys[token]);
        if info.Revoked || now > info.ExpiresAt + config.refreshExpiry {
          RemoveKey(token);
        }
        pending := pending - {token};
      }
      assert store.keys == Cleaned(config, s, now).keys;
    }
  }
}
