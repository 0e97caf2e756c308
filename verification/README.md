# Model of the MCP Go SDK's state machines

A Dafny model of the stateful core of the Model Context Protocol Go SDK: role inheritance, rate
limiting, server-sent events, two circuit breakers, cursor pagination, bearer-token sessions and
the cache in front of them, batched subscription notifications, a worker pool, batch response
correlation, weighted server selection and latency percentiles. Each file models one component
and proves what the component is for, over every input, every run or every interleaving.

`dafny verify dfyconfig.toml` checks the whole project.

| file | component |
|---|---|
| `rbac.dfy` | roles, inheritance and the permission search |
| `ratelimit.dfy` | token buckets, idle eviction, batch admission |
| `ratelimit_overlap.dfy` | calls of the limiter that overlap sweeps and resets |
| `event_stream.dfy` | the SSE printer of the server and the SSE reader of the client |
| `circuit_breakers.dfy` | the asking breaker with its retry loop, and the breaker around one call |
| `pagination.dfy` | parameter rules, server pages over one and over two lists, the client loop |
| `bearer.dfy` | token records shared between keys, overlapping refreshes, revocation, clean-up |
| `validation_cache.dfy` | the cache of validated tokens, composed with the bearer provider |
| `subscriptions.dfy` | matching, batching and flushing of resource changes |
| `bulkhead.dfy` | interleaved callers and workers around one queue |
| `batch_correlation.dfy` | handlers, channels and ordering of the responses to a batch |
| `late_responses.dfy` | handlers that run after their batch has returned |
| `load_balancing.dfy` | weighted selection |
| `latency.dfy` | insertion sort in place and nearest-rank percentiles |
| `common.dfy` | Option, Result and duplicate-freedom |

Objects that the source updates in place are classes whose methods are proved equal to a step on a
value (a table, a store, a reader state); the theorems about runs are lemmas about those values.
Where the source iterates over a map, the model picks the next key arbitrarily. Clocks, random
numbers, fresh token strings and the outcomes of remote calls are parameters. What the source does
under one lock is one atomic step that reads the clock once. What it does under several is several
steps with anything in between: a refresh is a check and a commit, a validation is a miss, a verdict
and a caching, a call of the limiter is a lookup and a charge, a late response is a lookup and a
send, and in `bulkhead.dfy` every channel operation and every counter update is a step of its own.

## What the code does that its documentation or a caller may not expect

- Role assignment is not monotone: the first role assigned to a user replaces the default role, and
  removing the last one gives the default role back (`AssignRoleEffect`, `RemoveRoleEffect`).
- A role named in the configured hierarchy keeps no built-in permissions, so that naming "admin"
  there leaves no role with every permission (`ConfiguredNamesLoseBuiltInPermissions`).
- Idle buckets are evicted without effect only if the burst is at most ten minutes' worth of the
  rate (or admits nothing); otherwise a drained key gets a second burst early
  (`EvictionInvisibleIff`, `WindowsBoundedIff`). These two are about calls that no sweep overtakes;
  a call whose bucket is swept between its lookup and its charge goes free
  (`OverlappingWindowBound`, `CutOffCallGoesFree`).
- A payload comes back unchanged from a printed event exactly when its lines carry no surrounding
  white space and its first line is not empty (`RoundTrip`). The WHATWG HTML Standard (sections
  9.2.5 and 9.2.6) removes one blank only, resets the event type at every blank line, and knows no
  close event; the reader trims, and keeps id and type over a blank line that ends no data.
- With a success threshold below one, the breaker around a call, once half-open, refuses every call
  forever, while the asking breaker recovers (`StuckHalfOpen`, `AskingBreakerRecovers`,
  `BreakersAgreeIff`).
- A request that keeps failing reports every attempt, and goes on retrying after it has opened the
  breaker itself (`FailingRequestReportsEveryAttempt`).
- Pages of `ListResources` that start past the first template can exceed the limit
  (`PageSizeIff`, `OverlongPage`); following the cursors still returns every item once.
- `TotalItems` of the collector counts the generic item list, which the typed listings leave empty
  (`TypedPagesCountNothing`).
- A revocation does not always end its session. A refresh that has passed its check hands out an
  accepted token after the revocation (`RevokedDuringRefresh`); and when two refreshes have
  overlapped, revoking the token of the first leaves that of the second accepted, with nothing in
  flight (`RevokedAfterTwoRefreshes`). `RevokeClosesIff` says exactly when the session is closed.
- A refresh token works once, apart from refreshes already under way: a comment says that a refresh
  keeps it, but it shares its record with the access token that the refresh revokes
  (`RefreshTokenWorksOnce`).
- A revoked token can be let in later than one time-to-live after its revocation, if a validation of
  its session had the provider's approval and was not yet cached (`RevokedIsSoonRefusedIff`).
- An added or modified change without a resource, and an updated one without contents, are batched
  and then send nothing (`FlushSendsExactly`). A content update goes out once for each subscription
  that matches it, and not grouped (`FlushSendsUpdates`).
- A response that is being handed over while its batch gives up is sent on a closed channel, which
  panics (`SendPanicsIff`, `LateSendPanics`).
- The queued counter of the worker pool can be below zero for a moment
  (`QueuedCounterCanBeNegative`).
- Two requests of one batch whose ids print alike (the number 1 and the string "1") can never be
  answered: the batch waits until its timeout (`SuccessIsCorrelated`).
- Weights are not checked: selection is proportional exactly when none is negative
  (`ProportionalIff`).

## Model

| member | source | states |
|---|---|---|
| `RoleBasedAccess.DirectTestIsCovers` | pkg/auth/rbac.go:177-185 | the three tests on one permission entry succeed exactly when the entry is the permission itself or a prefix of it followed by a star |
| `RoleBasedAccess.RBACProvider.RoleHasPermission` | pkg/auth/rbac.go:164-195 | the depth-first search terminates on every graph; a positive answer has a chain of parent links to a granting role, and a negative one leaves every name it visited without a grant and with all its parents visited |
| `RoleBasedAccess.ExhaustedMeansNotEntitled` | pkg/auth/rbac.go:165-169 | the visited set shared by sibling branches never hides a granting role: no chain from a visited name leads out of the set or to a grant |
| `RoleBasedAccess.PrependLink` | pkg/auth/rbac.go:187-192 | a role is entitled to whatever any of its parents is entitled to |
| `RoleBasedAccess.RBACProvider.HasPermission` | pkg/auth/rbac.go:149-161 | allowed exactly when some role reachable through parent links from a role the user acts under (the default role for a user without roles) has a permission that covers the request |
| `RoleBasedAccess.RBACProvider.CanAccessResource` | pkg/auth/rbac.go:198-217 | an unlisted resource is open; a listed one needs at least one of its permissions, in the sense of reachability |
| `RoleBasedAccess.RBACProvider.constructor` | pkg/auth/rbac.go:27-67 | the role table is the configured hierarchy completed by those of the four built-in roles whose names are free; nobody has roles yet |
| `RoleBasedAccess.ConfiguredNamesLoseBuiltInPermissions` | pkg/auth/rbac.go:35-67 | every configured name is a role that grants nothing itself, and the admin role grants everything exactly when the hierarchy does not name it |
| `RoleBasedAccess.BuiltInRoles` | pkg/auth/rbac.go:55-67 | where the hierarchy does not name them, admin is entitled to everything, user to read, list, create and update, guest to read and list, service to read, write and execute, and to nothing else |
| `RoleBasedAccess.UserWithoutRoles` | pkg/auth/rbac.go:55-67 | where the default role is the built-in user role, a user without roles may read, list, create and update, and nothing else |
| `RoleBasedAccess.RBACProvider.CreateRole` | pkg/auth/rbac.go:70-86 | an existing name is refused and left alone; a new one is added and no other role changes |
| `RoleBasedAccess.CreateRoleOnlyAdds` | pkg/auth/rbac.go:70-86 | creating a role never takes a permission away from any role |
| `RoleBasedAccess.RBACProvider.DeleteRole` | pkg/auth/rbac.go:89-105 | the default role is protected; another name disappears from the roles and from every user's list, so that users only ever hold existing roles, each once |
| `RoleBasedAccess.DeleteRoleKeepsAvoidingChains` | pkg/auth/rbac.go:89-105 | after a deletion a role keeps a permission exactly if it had a granting chain that avoids the deleted role |
| `RoleBasedAccess.RBACProvider.AssignRole` | pkg/auth/rbac.go:108-122 | only existing roles are assigned, at the end of the list and at most once |
| `RoleBasedAccess.AssignRoleEffect` | pkg/auth/rbac.go:108-146 | the exact permissions after an assignment: those of the new role, and the earlier ones unless the user acted under the default role |
| `RoleBasedAccess.RBACProvider.RemoveRole` | pkg/auth/rbac.go:125-133 | the user's list loses exactly that role |
| `RoleBasedAccess.RemoveRoleEffect` | pkg/auth/rbac.go:125-146 | the exact permissions after a removal: those of the other roles, or those of the default role when none is left |
| `RoleBasedAccess.RemoveStringFromSlice` | pkg/auth/rbac.go:284-292 | the loop computes the list without the name |
| `RoleBasedAccess.WithoutMembers` | pkg/auth/rbac.go:284-292 | removal keeps exactly the other names and keeps a list free of duplicates |
| `TokenBuckets.TokenBucket.Consume` | pkg/auth/ratelimit.go:119-138 | the bucket and the answer after one call, as the run theorems use them |
| `TokenBuckets.RateLimiter.Allow` | pkg/auth/ratelimit.go:103-116 | a call that nothing comes between: the decision and the new table, with no other key touched and no bucket shared |
| `TokenBuckets.RateLimiter.BucketOf` | pkg/auth/ratelimit.go:104-113 | the lookup half of a call: the key's bucket, full if there was none, and no other bucket touched |
| `TokenBuckets.RateLimiter.ChargeBucket` | pkg/auth/ratelimit.go:115-138 | the charge half of a call whose bucket is still in the table |
| `TokenBuckets.RateLimiter.Cleanup` | pkg/auth/ratelimit.go:141-158 | a sweep drops exactly the buckets idle for more than ten minutes |
| `TokenBuckets.RateLimiter.Reset` | pkg/auth/ratelimit.go:176-180 | the key is forgotten and nothing else |
| `TokenBuckets.RateLimiter.AdmitBatch` | pkg/auth/ratelimit.go:276-302 | a batch is refused for want of tokens exactly when the key has a stored bucket with fewer tokens than items, or has none and the burst is smaller than the batch, and then consumes nothing; otherwise it consumes call by call until a refusal |
| `TokenBuckets.FreshKeyBatch` | pkg/auth/ratelimit.go:163-172 | after any number of calls up to the burst at one instant on a key not seen before, all of them admitted, a batch at that instant passes the balance check exactly if its size is at most the burst less those calls; it is then admitted in full and leaves the rest |
| `TokenBuckets.RunsAreSound` | pkg/auth/ratelimit.go:119-138 | after any run of calls and sweeps no bucket holds more than the burst, comes from the future, or (for sensible numbers) holds a negative amount |
| `TokenBuckets.StepSpendsLevel` | pkg/auth/ratelimit.go:103-158 | an event takes from a key's level exactly one token if it admits that key and nothing otherwise; a safe sweep adds nothing |
| `TokenBuckets.SpentWithin` | pkg/auth/ratelimit.go:103-158 | from any sound table, admissions never exceed the level plus what the rate supplies meanwhile |
| `TokenBuckets.WindowBound` | pkg/auth/ratelimit.go:103-138 | over any run of calls that no sweep overtakes, and any window in it, a key is admitted at most the burst plus rate times window length |
| `TokenBuckets.WindowsBoundedIff` | pkg/auth/ratelimit.go:103-158 | with sweeps running, that bound holds for all runs exactly when the burst is at most ten minutes of the rate, or admits nothing |
| `TokenBuckets.SweptBucketIsFull` | pkg/auth/ratelimit.go:141-158 | under a safe configuration a swept bucket would have been full then and ever after |
| `TokenBuckets.SweepingSimulates` | pkg/auth/ratelimit.go:103-158 | the limiter with sweeps simulates the one without, state by state |
| `TokenBuckets.SafeMeansInvisible` | pkg/auth/ratelimit.go:103-158 | under a safe configuration every decision of every such run is the one made without sweeps |
| `TokenBuckets.UnsafeMeansVisible` | pkg/auth/ratelimit.go:103-158 | under any other configuration there is a run whose next decision a sweep changes |
| `TokenBuckets.EvictionInvisibleIff` | pkg/auth/ratelimit.go:103-158 | eviction is invisible in all runs, of calls that no sweep overtakes, exactly under a safe configuration |
| `TokenBuckets.KeysAreIsolated` | pkg/auth/ratelimit.go:103-116 | two runs with the same calls of one key and the same sweeps decide alike for that key, whatever other keys do |
| `TokenBuckets.StoredTokensSuffice` | pkg/auth/ratelimit.go:276-302 | with a non-negative rate, a stored balance of n lets n later calls through |
| `TokenBuckets.BatchesNeverCutShortIff` | pkg/auth/ratelimit.go:276-302 | a batch that passes the balance check is never cut short, from any reachable table and at any later instants, exactly when waiting cannot cost tokens or the burst is at most one |
| `OverlappingCalls.RunsStaySound` | pkg/auth/ratelimit.go:103-180 | the same for every reachable limiter, with lookups, charges, sweeps and resets in any order; a key and its pending calls never get the bucket of another key |
| `OverlappingCalls.ActionSpendsLevel` | pkg/auth/ratelimit.go:103-180 | an admitted call takes a token from its key's level unless its bucket has left the table; a reset gives back the burst at most, and nothing else adds |
| `OverlappingCalls.OrphansAfter` | pkg/auth/ratelimit.go:103-116 | calls cut off from the table are exactly those a sweep or reset cut off, less those charged since |
| `OverlappingCalls.OverlappingWindowBound` | pkg/auth/ratelimit.go:103-180 | over any window of any run with overlapping calls, a key is admitted at most the burst, plus rate times window length, plus the calls cut off between lookup and charge, plus the burst once more for each reset |
| `OverlappingCalls.CutOffCallGoesFree` | pkg/auth/ratelimit.go:113-115 | an interleaving in which a burst of one admits two calls at one instant |
| `EventStream.SSEConnection.SendSSEEvent` | pkg/server/http_handler.go:584-632 | an open connection gets the event's text appended and remembers its id; a closed one is left alone |
| `EventStream.PrintedText` | pkg/server/http_handler.go:605-625 | the text of an event: an id line, a type line, a data line for each line of the payload, a blank line |
| `EventStream.SSEConnection.SendPing` | pkg/server/http_handler.go:574-577 | a comment line and a blank line are appended |
| `EventStream.StreamableEventSource.ReadEvents` | pkg/transport/streamable_http.go:1559-1704 | the loop over a body is the line-driven state machine: same messages, same last id, and it ends disconnected |
| `EventStream.JoinOfSplit` | pkg/server/http_handler.go:612-617 | splitting at line breaks loses nothing |
| `EventStream.SplitOfJoin` | pkg/server/http_handler.go:612-617 | joined lines split into the same lines |
| `EventStream.TrimSpaceFacts` | pkg/transport/streamable_http.go:1673-1687 | trimming yields trimmed text, is the identity exactly on trimmed text, and makes no line breaks |
| `EventStream.AddAllIsJoin` | pkg/transport/streamable_http.go:1673-1681 | collecting the data lines of a payload gives its trimmed lines without the leading empty ones |
| `EventStream.ReadItem` | pkg/transport/streamable_http.go:1606-1704 | reading one printed event or ping has the item's meaning and leaves the reader between events, whatever text follows |
| `EventStream.ReadPrinted` | pkg/transport/streamable_http.go:1559-1704 | reading back any concatenation of printed events and pings yields what delivering the items in order yields, for all payloads and all types |
| `EventStream.OtherLinesAreIgnored` | pkg/transport/streamable_http.go:1615-1704 | comments, unknown fields and any other line that is not empty and not a data, id or event field change nothing, whatever text follows |
| `EventStream.BlankIsOptional` | pkg/transport/streamable_http.go:1673-1687 | a data, id or event field is read alike with and without a blank after its colon, for every value |
| `EventStream.FaithfulIffUnchanged` | pkg/transport/streamable_http.go:1673-1681 | a payload survives printing and reading exactly when its lines are trimmed and its first line is not empty |
| `EventStream.RoundTrip` | pkg/transport/streamable_http.go:1559-1704 | for events that do not close the stream, the client receives exactly the payloads in order, undisturbed by pings, if and only if all are faithful, and then remembers the last id |
| `EventStream.NothingAfterClose` | pkg/transport/streamable_http.go:1632-1638 | a close event ends delivery: neither its payload nor anything after it arrives, the payloads before it have arrived, and its id, if it has one, is the last id |
| `CircuitBreakers.ReliabilityCircuitBreaker.CanMakeCall` | pkg/transport/reliability_middleware.go:403-423 | the answer, and the turn to half-open after the timeout, as a step of a run |
| `CircuitBreakers.ReliabilityCircuitBreaker.RecordSuccess` | pkg/transport/reliability_middleware.go:425-437 | the success step of a run |
| `CircuitBreakers.ReliabilityCircuitBreaker.RecordFailure` | pkg/transport/reliability_middleware.go:439-454 | the failure step of a run |
| `CircuitBreakers.FieldsExplained` | pkg/transport/reliability_middleware.go:379-454 | after any interleaving of operations the failure count is the length of the current failure run, the last error is the latest failure, and the success count is that of the current probe, which has seen no failure |
| `CircuitBreakers.TransitionLaw` | pkg/transport/reliability_middleware.go:403-454 | when each state is left, from the history alone: Closed by a full run of failures, Open by asking after the timeout, HalfOpen by any failure or by enough successes with no failure since the probe began |
| `CircuitBreakers.CircuitBreaker.CallFn` | pkg/transport/streamable_http.go:2025-2064 | the fields and the verdict after one call, as a step of a run |
| `CircuitBreakers.CircuitBreaker.CallWhenHalfOpen` | pkg/transport/streamable_http.go:2067-2087 | the same for the half-open state |
| `CircuitBreakers.MatchedAgree` | pkg/transport/streamable_http.go:284-289 | from matching states the two breakers admit the same calls and stay in the same state forever, without exceeding the half-open limit |
| `CircuitBreakers.BreakersAgreeIff` | pkg/transport/streamable_http.go:284-289 | driven one call at a time from the start, the two agree on all timed outcomes exactly when the success threshold is at least one |
| `CircuitBreakers.StuckHalfOpen` | pkg/transport/streamable_http.go:2067-2070 | with the half-open limit reached, every later call is refused and nothing changes any more |
| `CircuitBreakers.AskingBreakerRecovers` | pkg/transport/reliability_middleware.go:425-437 | half-open, the asking breaker closes with exactly the success that completes the threshold, or with the first one if the threshold is below one |
| `CircuitBreakers.ReliabilityTransport.SendRequest` | pkg/transport/reliability_middleware.go:53-138 | the breaker is asked once; a refusal makes no attempt, and otherwise the loop goes through the attempts as the next rows say |
| `CircuitBreakers.SendStopsAt` | pkg/transport/reliability_middleware.go:75-137 | the first attempt that does not end in a retryable error decides: every attempt before it is reported as a failure, and then a reply as a success, a final error as one more failure, a cancellation not at all, with the outcome and the count of attempts of each; without such an attempt the retries are exhausted |
| `CircuitBreakers.FailingRequestReportsEveryAttempt` | pkg/transport/reliability_middleware.go:75-125 | a request that only fails uses up all its attempts, adds each to the failure count, and alone opens the breaker once they complete the run |
| `Pagination.ApplyDefaults` | pkg/pagination/pagination.go:50-75 | a limit from 1 to 200 is kept with its cursor; a missing, zero or negative limit becomes 50 and a larger one 200, and the cursor is kept |
| `Pagination.Collector.Update` | pkg/pagination/pagination.go:105-116 | more is expected exactly after a page that promises more and has a cursor; a missing page leaves cursor and total |
| `Pagination.TypedPagesCountNothing` | pkg/server/providers.go:115-306 | the pages of the listings carry no generic items, for every list and every cursor |
| `Pagination.FetchAllPages` | pkg/client/pagination.go:17-73 | against every server whose cursors make progress the loop ends, with the contents of all pages in order or with the first error |
| `Pagination.CoveringPagesReturnTheRest` | pkg/client/pagination.go:29-72 | if each page covers the stretch from its cursor to the next one, following the cursors returns the rest of both lists |
| `Pagination.SteadyPageCount` | pkg/client/pagination.go:29-72 | with cursors one limit apart the number of pages is the rounded-up quotient, but at least one |
| `Pagination.ListingReturnsTheRest` | pkg/server/providers.go:139-178 | over one list, from any offset: exactly the rest of the list, in the fewest pages |
| `Pagination.ListAll` | pkg/client/pagination.go:17-73 | fails exactly on a limit below 0 or above 200, and then on a cursor that is malformed or negative; otherwise returns the list from the cursor on |
| `Pagination.TwoListPage` | pkg/server/providers.go:273-306 | a page holds exactly what lies between its cursor and the position it reaches in the two lists laid end to end; a next cursor is strictly larger and inside |
| `Pagination.PageSize` | pkg/server/providers.go:251-306 | the exact size of every page: as many items as the limit (50 without a positive one) and the rest allow, and past the first template as many more as there are templates before the cursor |
| `Pagination.PageSizeIff` | pkg/server/providers.go:273-284 | a page exceeds the limit exactly when it starts past the first template with more templates left than the limit |
| `Pagination.OverlongPage` | pkg/server/providers.go:273-284 | seven templates and limit two: an ordinary listing gets a page of four |
| `Pagination.TwoListingsReturnTheRest` | pkg/server/providers.go:251-306 | from any position the cursors lead through the rest of both lists, each item once and in order |
| `Pagination.ListAllResources` | pkg/client/pagination.go:104-138 | every resource and every template exactly once and in order, for all lengths |
| `BearerTokens.BearerTokenProvider.Validate` | pkg/auth/bearer.go:194-211 | accepted exactly when stored, not revoked and not past its expiry, and then with its record's user |
| `BearerTokens.BearerTokenProvider.Authenticate` | pkg/auth/bearer.go:95-185 | a login stores one record under both its tokens and opens a session; a bearer request changes nothing and succeeds exactly for an accepted token; no earlier token is revived |
| `BearerTokens.BearerTokenProvider.CheckRefresh` | pkg/auth/bearer.go:216-236 | the check passes exactly for a stored, unrevoked, unexpired refresh token of its record, and remembers that record; nothing changes |
| `BearerTokens.BearerTokenProvider.CommitRefresh` | pkg/auth/bearer.go:238-277 | the commit hands out its token on whatever the store has become, without checking again; nothing is revived |
| `BearerTokens.BearerTokenProvider.Refresh` | pkg/auth/bearer.go:215-277 | a refresh that nothing overlaps: succeeds exactly when its check passes, and then replaces the session's access token through the shared record; a failure changes nothing |
| `BearerTokens.BearerTokenProvider.Revoke` | pkg/auth/bearer.go:280-304 | any stored token can be revoked; every stored token of its session is then revoked exactly if the token's record is the login's, is the current one, or the current one is not live; an unknown token is an error without effect |
| `BearerTokens.BearerTokenProvider.CleanupExpired` | pkg/auth/bearer.go:318-329 | of the stored keys exactly those go whose record is revoked or longer past its expiry than the refresh expiry; nothing is revived |
| `BearerTokens.CleanupKeepsUsable` | pkg/auth/bearer.go:318-329 | a token that is not revoked, and not longer past its expiry than the refresh expiry, is accepted and refreshed after a clean-up exactly as before |
| `BearerTokens.AtMostOneLiveAccessToken` | pkg/auth/bearer.go:132-148 | in every reachable store, however refreshes overlap, a session has at most one unrevoked access token |
| `BearerTokens.CommittedKeepsInv` | pkg/auth/bearer.go:255-266 | a commit on any reachable store, whatever happened since its check, leaves its token as the one unrevoked token of its session |
| `BearerTokens.RevokedRecord` | pkg/auth/bearer.go:284-301 | a revocation marks exactly the records that the token, its refresh token and the token its record points at lead to |
| `BearerTokens.RefreshTokenWorksOnce` | pkg/auth/bearer.go:220-266 | once a refresh has been committed, no later check of its refresh token passes and the refresh token is not accepted, whatever follows |
| `BearerTokens.RunsReviveNothing` | pkg/auth/bearer.go:95-329 | over any mix of logins, refresh checks, refresh commits, revocations and clean-ups the invariant holds, and no revocation, removal or expiry of a token is undone |
| `BearerTokens.InvalidStaysInvalid` | pkg/auth/bearer.go:188-329 | a token handed out and not accepted at some time is never accepted later, also with refreshes overlapping anything |
| `BearerTokens.AcceptedAsLoginUser` | pkg/auth/bearer.go:121-185 | over every run, however refreshes overlap, an accepted token is accepted with the user of the login that opened its session |
| `BearerTokens.AcceptedWithinExpiry` | pkg/auth/bearer.go:188-211 | over every run, a token is accepted only up to the token expiry after the operation that issued it |
| `BearerTokens.RefreshedWithinExpiry` | pkg/auth/bearer.go:220-236 | over every run, a refresh passes its check only up to the refresh expiry after its token was issued |
| `BearerTokens.LoginIsUsable` | pkg/auth/bearer.go:121-185 | right after a login its tokens are accepted exactly up to the token expiry, and the refresh token passes the check exactly up to the refresh expiry, if refreshing is configured |
| `BearerTokens.RevokeEndsIff` | pkg/auth/bearer.go:280-304 | after a revocation every stored token of the session is revoked exactly if the revocation gets at the session's current token |
| `BearerTokens.ClosedForGoodIff` | pkg/auth/bearer.go:215-304 | from any reachable state no token of a session, handed out by now or ever, is accepted again exactly if none is live and no refresh of the session is in flight |
| `BearerTokens.RevokeClosesIff` | pkg/auth/bearer.go:280-304 | in every reachable state, revoking a token closes its session for good exactly if it gets at the current token and no refresh of the session is in flight |
| `BearerTokens.RevokingLiveTokenCloses` | pkg/auth/bearer.go:280-304 | with no refresh in flight, revoking a token that is not revoked yet always closes its session |
| `BearerTokens.RevokedDuringRefresh` | pkg/auth/bearer.go:220-266 | check, successful revocation, commit: the session has an accepted token again |
| `BearerTokens.RevokedAfterTwoRefreshes` | pkg/auth/bearer.go:220-304 | two checks, two commits, then the revocation of the first new token: the second stays accepted |
| `ValidationCache.TokenCache.Set` | pkg/auth/middleware.go:311-328 | the entry is stored, at most one other is dropped and only from a full cache, and the size stays within the limit (or one) |
| `ValidationCache.TokenCache.Cleanup` | pkg/auth/middleware.go:330-344 | exactly the expired entries go |
| `ValidationCache.AuthMiddleware.ValidateToken` | pkg/auth/middleware.go:186-206 | an entry unexpired at the lookup answers; otherwise the provider does at a second instant, and only an approval is cached, from a third instant on |
| `ValidationCache.EntriesWereCached` | pkg/auth/middleware.go:186-206 | every cached entry stems from the end of an approved validation one time-to-live before its expiry |
| `ValidationCache.ApprovalsWereGiven` | pkg/auth/middleware.go:186-206 | every approval under way was given by the provider itself, for that token and user |
| `ValidationCache.AcceptedWasApproved` | pkg/auth/middleware.go:186-206 | whoever is let in at t was approved by the provider at some t0 and cached or handed out at some t1, with t0 <= t1 <= t and t at most one time-to-live after t1 |
| `ValidationCache.LetInAsLoginUser` | pkg/auth/middleware.go:186-206 | whoever is let in, from the cache or not, is the user of an earlier login, the one that opened the session of the token |
| `ValidationCache.ClosedIsSoonRefusedIff` | pkg/auth/middleware.go:186-206 | when a session is closed for good by time r, its tokens are let in until r plus the time-to-live and no longer, over everything that may follow, exactly if no approved validation of the session is under way at r |
| `ValidationCache.RevokedIsSoonRefusedIff` | pkg/auth/middleware.go:186-206 | the same right after a revocation that gets at the current token with no refresh in flight |
| `Subscriptions.ChildIsBelow` | pkg/server/subscriptions.go:285-291 | a child URI is its parent followed by a slash and anything |
| `Subscriptions.MatchesIsConcerns` | pkg/server/subscriptions.go:196-213 | a subscription matches a URI exactly if it is for that URI, or is recursive and the URI is its own followed by a slash and anything |
| `Subscriptions.ResourceSubscriptionManager.Subscribe` | pkg/server/subscriptions.go:82-104 | a new URI is added; a second subscription changes nothing |
| `Subscriptions.ResourceSubscriptionManager.Unsubscribe` | pkg/server/subscriptions.go:107-119 | the URI is removed, or reported missing |
| `Subscriptions.ResourceSubscriptionManager.ShouldNotify` | pkg/server/subscriptions.go:196-213 | true exactly when some subscription matches the URI, exactly or as a recursive parent |
| `Subscriptions.ResourceSubscriptionManager.NotifyResourceChange` | pkg/server/subscriptions.go:155-162 | a change is queued, or dropped when a hundred are waiting |
| `Subscriptions.ResourceSubscriptionManager.ReceiveChange` | pkg/server/subscriptions.go:180-184 | the oldest queued change joins the batch exactly if some subscription matches it: the arrival step of a run |
| `Subscriptions.ResourceSubscriptionManager.Tick` | pkg/server/subscriptions.go:185-190 | one flush, in some order of the batch: the tick step of a run, after which the batch is empty |
| `Subscriptions.ResourceSubscriptionManager.SendBatchedNotifications` | pkg/server/subscriptions.go:216-282 | for some order of the batch's URIs, each subscription with something to report gets one group with exactly its added, modified and removed entries, and each content update goes out once for each match |
| `Subscriptions.ResourceSubscriptionManager.GroupChanges` | pkg/server/subscriptions.go:227-264 | the changes of one URI extend the groups of exactly the matching subscriptions |
| `Subscriptions.ResourceSubscriptionManager.SendGroups` | pkg/server/subscriptions.go:266-281 | every group that is not empty is sent once, the others not at all |
| `Subscriptions.CollectedPerUri` | pkg/server/subscriptions.go:227-264 | whatever the order of the batch, a subscription collects of each matching URI all admitted changes in order, and of others none |
| `Subscriptions.RenderPermuted` | pkg/server/subscriptions.go:241-259 | changes in another order give the same entries, each as often |
| `Subscriptions.FlushSendsExactly` | pkg/server/subscriptions.go:216-282 | a flush sends a subscription at most one group, never an empty one; the group lists as added each resource as often as there are positions in the admitted changes with an added change of that resource under a URI of the subscription, and likewise the modified resources and the removed URIs; if no group is sent there is no such change |
| `Subscriptions.FlushSendsUpdates` | pkg/server/subscriptions.go:253-259 | a flush sends each content update as often as there are positions in the admitted changes with that URI and contents, times the subscriptions to the URI |
| `Subscriptions.SentListsGot` | pkg/server/subscriptions.go:165-193 | over any run, also while subscriptions come and go, the groups sent to a subscription list the added resources, the modified resources and the removed URIs of the changes it collected, each in the order of those changes |
| `Subscriptions.GotOnceInOrder` | pkg/server/subscriptions.go:165-193 | over any run with unchanged subscriptions, a subscription collects of each URI it matches all arrived changes once and in order, up to those still batched, and of others none |
| `Subscriptions.SentExactlyOnce` | pkg/server/subscriptions.go:165-282 | over any such run a subscription is sent each resource as added as often as there are positions in the run where a change arrives that adds it under a URI of the subscription, with a tick to follow; and likewise each modified resource and each removed URI |
| `Subscriptions.UpdatesSentExactlyOnce` | pkg/server/subscriptions.go:165-282 | over any such run each content update goes out as often as it arrives with a tick to follow, times the subscriptions to its URI |
| `Subscriptions.PendingIsHeld` | pkg/server/subscriptions.go:174-192 | in every run the batch is what was admitted since the last tick |
| `BulkheadPool.NextKeepsInv` | examples/error-recovery/main.go:416-475 | every step of every caller and worker keeps all counters right and every accepted request in exactly one place |
| `BulkheadPool.BulkheadSafety` | examples/error-recovery/main.go:384-475 | under any interleaving: at most MaxConcurrentRequests requests are active (ten if zero) and as many operations run at most, at most QueueSize wait (a hundred if zero), the queued counter is the queue length plus pending decrements minus pending increments, no operation starts twice or for a rejected request, and the other counters add up |
| `BulkheadPool.RejectedIff` | examples/error-recovery/main.go:386-433 | in every reachable state a call is turned away exactly if QueueSize requests wait (a hundred if zero); otherwise its request comes last in the queue |
| `BulkheadPool.LimitsAreReached` | examples/error-recovery/main.go:386-411 | any number of active requests within the one limit, together with any number of waiting ones within the other, is reached by some interleaving |
| `BulkheadPool.FirstComeFirstTaken` | examples/error-recovery/main.go:416-475 | under any interleaving, no request that a worker has taken came later than one that still waits |
| `BulkheadPool.NothingIsLost` | examples/error-recovery/main.go:416-475 | an accepted request is always in the queue, in a worker's hands, or started once and answered |
| `BulkheadPool.SendsAreNeverDropped` | examples/error-recovery/main.go:463-469 | a worker that reports finds the response channel empty |
| `BulkheadPool.QueuedCounterCanBeNegative` | examples/error-recovery/main.go:425-452 | an interleaving in which the queued counter is minus one |
| `BatchCorrelation.StreamableHTTPTransport.HandleResponse` | pkg/transport/streamable_http.go:1211-1233 | with nothing in between: the handler of the response's id gets it and is removed, its channel is open, a full channel keeps its response, and no other channel changes |
| `BatchCorrelation.StreamableHTTPTransport.Deliver` | pkg/transport/streamable_http.go:677-684 | what a handler does with a response: stored in an empty channel, dropped at a full one, a panic at a closed one |
| `BatchCorrelation.StreamableHTTPTransport.HandleAll` | pkg/transport/streamable_http.go:1211-1233 | over any arrivals each handler's channel ends up with the first response for its id |
| `BatchCorrelation.StreamableHTTPTransport.Register` | pkg/transport/streamable_http.go:673-688 | each id text of the batch has a handler with an empty channel of its own; the handlers of others stay |
| `BatchCorrelation.StreamableHTTPTransport.Collect` | pkg/transport/streamable_http.go:729-742 | a pass over the channels in any order collects exactly the responses that have arrived and goes on waiting for the other ids |
| `BatchCorrelation.Order` | pkg/transport/streamable_http.go:750-759 | the nested loops put the collected responses in request order |
| `BatchCorrelation.GetRequests` | pkg/protocol/jsonrpc.go:342-354 | every id stands at an increasing position of the batch at which that request stands, and every request of the batch is at one of these positions |
| `BatchCorrelation.StreamableHTTPTransport.SendBatchRequest` | pkg/transport/streamable_http.go:658-761 | the result of a batch for every sequence of arrivals; a success lists one response for each request of the batch in the order of the requests; the batch leaves no handler behind, closes only channels it made, and none if it succeeds; requests of others are served as if it were not there |
| `BatchCorrelation.SuccessIsCorrelated` | pkg/transport/streamable_http.go:712-760 | a batch succeeds exactly when no two of its requests have the same id text and each is answered in time; the responses are then, position by position in the batch and in that order, the first ones that arrived for its requests, one for each, and none for notifications (section 6 of the JSON-RPC 2.0 specification) |
| `BatchCorrelation.ArrivalOrderIsIrrelevant` | pkg/transport/streamable_http.go:712-760 | permuting the arrivals does not change the result |
| `LateResponses.HandlersStayOpen` | pkg/transport/streamable_http.go:688-699 | in every reachable state no installed handler sends to a closed channel |
| `LateResponses.SendPanicsIff` | pkg/transport/streamable_http.go:1219-1230 | a send meets a closed channel exactly if, between the lookup of its handler and the send, a batch returned that still waited on that channel |
| `LateResponses.LateSendPanics` | pkg/transport/streamable_http.go:688-699 | an interleaving in which that happens |
| `LoadBalancing.WeightedSelect` | examples/multi-server/main.go:230-251 | selects the first server whose running total exceeds the target, for any weights with a total that is not negative; the fallback is not reached; a total of zero selects at random |
| `LoadBalancing.OneServerIsChosen` | examples/multi-server/main.go:240-250 | every target selects exactly one server |
| `LoadBalancing.ProportionalIff` | examples/multi-server/main.go:230-251 | each server is selected by as many targets as its weight, exactly when no weight is negative |
| `LatencyStatistics.InsertAt` | benchmarks/loadtest.go:486-493 | one round of the sort, in place |
| `LatencyStatistics.SortDurations` | benchmarks/loadtest.go:484-495 | the array ends up as the sorted list of its old contents |
| `LatencyStatistics.SortedIsSorted` | benchmarks/loadtest.go:484-495 | that list is ascending and a permutation of the contents |
| `LatencyStatistics.PercentileIndex` | benchmarks/loadtest.go:497-504 | the position is in the list; a hundred times it is below the percentage times the length, and a hundred times the next one is not, unless it is clamped |
| `LatencyStatistics.PercentileIsLeastCovering` | benchmarks/loadtest.go:497-506 | the percentile is the least sample v such that a hundred times the number of positions with a sample of at most v reaches the percentage times the number of samples; from 100 on it is the largest sample |
| `LatencyStatistics.PercentilesGrow` | benchmarks/loadtest.go:497-506 | a larger percentage never gives a smaller value |

## Left out

- HTTP, stdio, goroutine scheduling, locks, logging and metrics, except where a file models interleaved steps.
- Configuration defaults and types; `BaseTransport` and the configuration structures are not part of this model.
- Base64 and JSON: a cursor is an offset, absent or malformed, and a message is a value.
- RoleHasPermission: the read lock that the source takes recursively is not modelled.
- HasPermission: role slices are values, so what a caller does to a slice it passed in or got back is not modelled.
- SetResourcePermissions, GetUserRoles, EnforcePermission, EnforceRole and the global provider, which add only assignments and wrappers.
- Allow: time is an exact real, so rounding is not modelled; overlapping calls are in `OverlappingCalls`, where a sweep or reset is one step.
- EvictionInvisibleIff: speaks of calls that no sweep overtakes; what overtaken calls add is bounded by `OverlappingWindowBound`.
- AdmitBatch: other callers between its steps appear only as the starting table; the theorem about batches is about batches that no other caller comes between.
- ReadEvents: the message channel never fills; read errors in mid-line, timeouts and the retry interval that retry lines set are not modelled.
- SendSSEEvent: a ping lands between events, never inside a half-written one; event ids come from a parameter.
- CallFn: the failure time is read once, where the source reads it twice in a row.
- SendRequest: which errors are retryable and how long a retry waits (with its random jitter) are inputs; `SendNotification` and `SendBatchRequest` of that file repeat the loop.
- `processEventSource` looks at the breaker's state without calling it, and nothing is claimed about its recovery.
- FetchAllPages: a page of an unsupported Go type cannot occur in the typed model.
- ListAll: one fixed enumeration of the provider's table is assumed for a whole listing; a Go map may be enumerated differently for each page, and then nothing is promised.
- ListAllResources: the filters by URI, category and tag are taken to have been applied to the lists.
- Authenticate: random tokens are fresh parameters; scopes, roles of the user, and the seconds until expiry are not modelled, nor is the custom validation callback.
- RevokeClosesIff: acceptance is asked at every instant, not only at those after the last operation, so a current token that has already expired still counts as one the revocation should get at.
- CheckRefresh: the source reads the record's fields after the read lock is released; as revocations are never taken back and the clock only advances, a check that passes would have passed at the lookup.
- Validate: reads the record after the lock as well, with the same argument; a bearer request looks its token up once more, and reports an error if a clean-up came in between.
- `hasRolePermission` and the anonymous methods of the middleware are fixed tables.
- Tick: subscriptions do not change during a flush, and notifications do not fail; the time of the last update is not modelled.
- BulkheadSafety: callers and workers interleave, so the pool is a state that single steps replace and not an object; operation results and the average wait time, which the source never sets, are not modelled.
- HandleResponse: single pending requests and the base transport are not modelled; a second lookup of the same handler before its removal is in `LateResponses`, which has no contents of channels.
- SendBatchRequest: an id is the text it is rendered as.
- WeightedSelect: integer overflow of the total is not modelled. The other strategies are left out: their order depends on map enumeration, and the least-connections sentinel collides with negative counts.
- PercentileDuration: the product and the quotient are exact reals, where the source rounds in floating point.
