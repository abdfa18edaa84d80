# Verified model of auth-service

A Dafny model of the state that the authentication service keeps in Redis and in its
token and user tables, and proofs about every run of it. `dafny verify dfyconfig.toml`
checks the whole project.

## What is modelled

**Login sessions.** One session is spread over four Redis key families: `access:{jti}`,
`refresh:{token}`, the `session:{sid}` hash and the `sessions:{uid}` set
(`SessionStore.dfy`). It is modelled twice.

- *Round trip by round trip* (`Interleaving.dfy`, `SessionRuns.dfy`,
  `SessionRaces.dfy`, `SessionRevocation.dfy`). Every in-flight handler is a process with
  its program counter and the values it has read. GETDEL, HGETALL, SMEMBERS, DEL and each
  MULTI transaction are one event each; so are the passing of time and the death of a
  handler. Any number of handlers interleave in any order. The last file says when a
  revocation, or a whole revoke-all, is final.
- *Operation by operation* (`RedisTokenStore.dfy`, `SessionTable.dfy`). The classes
  `RedisTokenStore`, `RefreshTokenHandler`, `RevokeSessionHandler` and `AuthMutation`
  with mutable maps, each method proved equal to a function of the old store; then the
  four families are proved to be one table, session id to row, over every run.

`SessionAtoms.dfy` proves that the two models agree: an uninterrupted handler of the
first is an operation of the second. `FakeTokenStore.dfy` proves that the unit tests'
in-memory store and the Redis store cannot be told apart while no time passes.
`Keys.dfy` and `FlatRedis.dfy` put the four families, the rate-limit counters and the
idempotency records into one string-keyed Redis.

**Rate limiting** (`RateLimiter.dfy`, `RateRuns.dfy`, `Middleware.dfy`,
`MiddlewareRuns.dfy`, `Emails.dfy`). The fixed-window counter with the round trips of
different callers interleaved, and the GraphQL middleware with its table of limits, for
requests whose checks interleave.

**Idempotency** (`Idempotency.dfy`, `IdempotencyRuns.dfy`, `IdempotencyRaces.dfy`). The
response cache behind `Idempotency-Key`, for requests one at a time and for requests
that overlap.

**Accounts and password resets** (`Accounts.dfy`, `AccountRuns.dfy`, `ResetSteps.dfy`).
The token table, the handlers, runs that mix registrations, logins, session operations,
reset requests, resets and deactivations, and the statements of overlapping handlers as steps.

## Where the code and its documentation disagree

The model follows the code. Each entry names the lemmas with a concrete run and the lemma
with the exact condition.

1. "Access token can be revoked instantly" (line 209 of the service's README), "ensures
   revoked tokens are rejected immediately" (queries.py:40). `revoke_session` reads the
   hash and deletes in a later transaction. A refresh that commits in between leaves a
   live jti and refresh token of the revoked session (`RotationCanOvertakeRevocation`),
   and so does one that has read the hash before the revocation and commits after it
   (`SeveredForGoodIff`), at most once (`BoundedRevocation`). A revocation is final, over
   every continuation, exactly when no refresh of the session is past its own read and
   none has committed since the revocation's read, unless what it wrote has gone again
   (`RevocationIsFinalIff`, `StillCurrentIff`). The late HSET makes a hash without `user_id`, on which the next
   refresh fails with KeyError instead of InvalidTokenError (`RotateSession`), and puts
   the late pair out of the reach of later revoke-alls and of the owner check
   (`LatePairIsOutOfReach`).
2. The comment at redis_token_store.py:166-168 says that concurrent logins are not left
   dangling because the set is deleted first. That is so for logins after the DEL
   (`LaterLoginIsSpared`). A login between SMEMBERS and DEL is taken out of the set
   without being revoked (`LoginCanBeStranded`); `DropStrandsIff` says exactly when, and
   `StrandedStaysStranded` that no later revoke-all finds the session. The sessions not
   yet reached share that fate when the process dies in the loop (`CrashCanStrand`,
   `CrashStrandsIff`).
3. The container takes both TTLs from the environment without comparing them. An access
   token can outlive its session exactly when its TTL is the larger one
   (`AccessEndsFirstIff`).
4. rate_limiter.py:82-85 says that SET NX EX ensures a TTL before the first INCR. An INCR
   that comes at or after the end of the window that the latest SET NX before it found or
   opened makes a counter that never expires (`LapseCanHappen`; `PersistentIff` for the
   exact condition), and the key is locked out for good once the limit is used up
   (`PersistentLocksOut`). That a window ends between a caller's own two round trips is
   not enough (`StraddlingCanBeHarmless`). The bound on accepted checks holds all the
   same.
5. idempotency.py:26-27 promises a conflict for a different body under the same key. The
   hash covers the operation name and the variables only, so a different query text gets
   the first response (`OtherDocumentGetsSameAnswer`); the conflict occurs exactly when
   the variables differ (`RetryIsAnswered`). "Without re-executing the mutation" is not
   kept by two overlapping requests (`OverlapExecutesTwice`); another execution can
   follow a stored one exactly when a request under the key is pending at its SETEX
   (`ExecutesAgainIff`, `SecondExecutionOverlapped`).
6. "One active reset token per user" (line 204 of the service's README). With each
   statement taking effect when it is executed, two overlapping requests leave two unused
   tokens (`OverlappingRequestsLeaveTwoRows`); `InsertDoublesIff` and `SingleRowsIff` give the exact condition, and
   `SerialRowsAreSingle` that handlers which do not overlap keep the promise after every
   statement.
7. "Reset token is single-use" (line 206 of the service's README). Likewise, two
   overlapping resets can both find the token unused and both save it
   (`OverlappingResetsUseTokenTwice`); a saved token can be used again exactly when
   another reset is under way that had found it before (`SavesAgainIff`).

## Assumptions

Generated session ids, jtis, refresh tokens, row ids and reset tokens are new and not
empty. SHA-256 is injective and bcrypt accepts a password for its own hash. The clock
does not go back, time is in whole seconds, and a Redis key is gone at the moment its
expiry comes. TTLs are positive, as SETEX requires, and constant over a run. The JWT
library's decoding is a parameter: what it returns for a valid token is `Bearer`.

## Model

| member | source | states |
|---|---|---|
| Interleaving.StepKeepsInv | auth_service/infrastructure/redis/redis_token_store.py:38-172 | Every single round trip of every handler (login, GETDEL, HGETALL, each MULTI transaction, SMEMBERS, DEL), every passing of time and every crash keeps the invariant of the store, the issued identifiers and all in-flight handlers, whatever else is in flight |
| SessionRuns.RunKeepsInv | auth_service/infrastructure/redis/redis_token_store.py:38-172 | The invariant holds at every moment of every run, with any number of handlers interleaved in any order |
| SessionRuns.OneTokenOrOneRefresh | auth_service/infrastructure/redis/redis_token_store.py:83-143 | Live refresh tokens of a session plus refresh handlers that have consumed one of its tokens and not finished: never more than one. Only the last token of the chain can be live; every earlier pair is dead; rotations of one session never overlap |
| SessionRuns.OneAccessJti | auth_service/infrastructure/redis/redis_token_store.py:113-143 | A session never has more than one live access jti, and it is the last one a transaction wrote for it |
| SessionRuns.AllowlistMatchesJwt | auth_service/infrastructure/redis/redis_token_store.py:50-51 | A jti on the allowlist belongs to a JWT whose sub is the user who logged in and whose sid is the session, and whose exp is no later than the allowlist entry's expiry, however late the transaction was sent |
| SessionRuns.MintedClaims | auth_service/infrastructure/security/jwt_token_service.py:21-30 | A JWT generated by a login names that user and session, and one generated by a refresh those of the consumed token; it expires one access TTL later |
| SessionRuns.JwtIsFixed | auth_service/infrastructure/security/jwt_token_service.py:21-30 | Its claims stay as they were generated, over the whole run |
| SessionRuns.DeadStaysDead | auth_service/infrastructure/redis/redis_token_store.py:80-162 | Under every interleaving a jti or refresh token that has stopped being valid (rotated, revoked, consumed or expired) is never valid again |
| SessionRuns.ConsumedAtMostOnce | auth_service/infrastructure/redis/redis_token_store.py:83-96 | Of all GETDELs of one refresh token over a whole run at most one finds it |
| SessionRuns.SeveredRun | auth_service/infrastructure/redis/redis_token_store.py:108-143 | Once the hash of a session is gone or lacks user_id it stays so, no further handler gets past the read in rotate_session, and each rotation that still commits uses up one handler that had read before |
| SessionRuns.BoundedRevocation | auth_service/infrastructure/redis/redis_token_store.py:145-162 | After a revoke transaction for a session at most one more rotation of it commits, ever, and only by a handler that had read the hash before; if there is none, no refresh of the session succeeds again |
| SessionRuns.RevokedAccessEnds | auth_service/infrastructure/redis/redis_token_store.py:124-162 | A jti of a revoked session can be live only within the access TTL of the revocation, or of the one rotation that may follow it |
| SessionRevocation.LatePairIsOutOfReach | auth_service/infrastructure/redis/redis_token_store.py:108-143 | After a revocation whose read named a user, the session is in nobody's set again and its hash names nobody: no later revoke-all, a password reset's included, has it in its snapshot, and the owner check of revoke_session refuses everybody. A pair that a late rotation writes can only age out, or be caught by a revoke-all already under way |
| SessionRuns.RevocationIsImmediateIff | auth_service/infrastructure/redis/redis_token_store.py:145-162 | Right after its transaction a revocation leaves no live jti (no live token) of the session exactly when the jti (token) that its HGETALL returned is still the current one, or the current one is not live |
| SessionRevocation.StillCurrentIff | auth_service/infrastructure/redis/redis_token_store.py:146-152 | What the HGETALL of a revocation returned is still current when its transaction is sent exactly when no rotation of the session has committed in between |
| SessionRevocation.RevocationIsFinalIff | auth_service/infrastructure/redis/redis_token_store.py:108-162 | Over every continuation of every run: nothing of the session is ever live again after a revocation, if and only if no refresh of it is past its own HGETALL when the transaction is sent, and none has committed since the revocation's HGETALL unless what it wrote is gone again |
| SessionRevocation.DarkForGoodIff | auth_service/infrastructure/redis/redis_token_store.py:38-172 | For every session id generated so far: nothing of it is ever live again, in any continuation, if and only if nothing is now, no login of it waits to be committed, and no refresh of it is past its HGETALL or can still pass it |
| SessionRevocation.SeveredForGoodIff | auth_service/infrastructure/redis/redis_token_store.py:108-143 | For any session whose hash is gone or lacks user_id: nothing of it is ever live again exactly when nothing is now and no refresh has read the hash; a refresh that has read it can always commit a live pair |
| SessionRevocation.SweptForGoodIff | auth_service/infrastructure/redis/redis_token_store.py:164-172 | When a revoke-all has gone through its snapshot, as at the end of a password reset, every session of the snapshot has lost its hash, and stays dark for good exactly when nothing of it is live and no refresh of it is past its HGETALL |
| SessionRevocation.SurvivorsIff | auth_service/application/commands/reset_password.py:57-63 | Which sessions survive a whole revoke-all, as at the end of a password reset, over all session ids: the exact condition for a session of the snapshot, for another one that has logged in, and for one whose login is not committed yet |
| SessionRaces.RotationCanOvertakeRevocation | auth_service/infrastructure/redis/redis_token_store.py:146-162 | A run in which the session has been revoked and its new jti and refresh token are nevertheless live: a whole refresh falls between the HGETALL and the transaction of revoke_session |
| SessionRaces.EntriesNameTheirOwner | auth_service/infrastructure/redis/redis_token_store.py:112-129 | Every access, refresh, hash and set entry of a session names the user who logged in, at every moment of every run, so an owner check made on a read is still right when the revocation it guards commits |
| SessionRaces.SessionsAreIsolated | auth_service/infrastructure/redis/redis_token_store.py:38-162 | Except for the passing of time, each round trip leaves the access, refresh and hash entries of every session but its own target exactly as they were, in every run, even when it sends values that were read earlier |
| SessionRaces.LaterLoginIsNotSwept | auth_service/infrastructure/redis/redis_token_store.py:164-172 | A session that had not logged in when a revoke-all took its snapshot is never among those that the handler means to revoke |
| SessionRaces.LaterLoginIsSpared | auth_service/infrastructure/redis/redis_token_store.py:164-172 | Whatever that revoke-all does next leaves the later session's entries alone and, after its DEL, also the session's place in the user's set |
| SessionRaces.SnapshotMissesIff | auth_service/infrastructure/redis/redis_token_store.py:165-169 | Over every run: of the sessions that the DEL takes out of the set, the snapshot has exactly those that had logged in before the SMEMBERS |
| SessionRaces.DropStrandsIff | auth_service/infrastructure/redis/redis_token_store.py:165-169 | Over every run: the DEL of a revoke-all puts a session of the set out of reach of every revoke-all exactly when the session logged in after this one's SMEMBERS and no other revoke-all under way has it in its snapshot |
| SessionRaces.LoginCanBeStranded | auth_service/infrastructure/redis/redis_token_store.py:165-172 | A run in which a login commits between SMEMBERS and DEL: the revoke-all is over, the session is live, and neither the user's set nor any handler has it |
| SessionRaces.StrandedStaysStranded | auth_service/infrastructure/redis/redis_token_store.py:164-172 | A session out of reach stays so: no revoke-all ever has it in a snapshot again |
| SessionRaces.CrashStrandsIff | auth_service/infrastructure/redis/redis_token_store.py:165-172 | Over every run: when a revoke-all dies after its DEL, a session that it had not reached is out of reach of every revoke-all exactly when no other one under way has it |
| SessionRaces.CrashCanStrand | auth_service/infrastructure/redis/redis_token_store.py:165-172 | A run in which the revoke-all dies after its DEL and leaves a live session that no later one will find |
| SessionRaces.LoginPastCheckSurvives | auth_service/application/commands/authenticate_user.py:89-107 | A run in which a login that had passed the password check is committed after a whole revoke-all, and stays live and indexed |
| SessionAtoms.LoginIsAtomic | auth_service/application/commands/authenticate_user.py:93-107 | Uninterrupted, the login's steps have exactly the effect of create_session |
| SessionAtoms.RefreshIsAtomic | auth_service/application/commands/refresh_token.py:41-58 | Uninterrupted, the three round trips of a refresh have exactly the effect of the atomic refresh, whichever of its outcomes occurs |
| SessionAtoms.RevokeIsAtomic | auth_service/infrastructure/redis/redis_token_store.py:145-162 | Uninterrupted, HGETALL and transaction are the atomic revocation |
| SessionAtoms.RevokeAllIsAtomic | auth_service/infrastructure/redis/redis_token_store.py:164-172 | Uninterrupted, SMEMBERS, DEL and the loop are the atomic revoke-all, in whatever order the members come |
| SessionTable.RevokeOneMore | auth_service/infrastructure/redis/redis_token_store.py:170-172 | Revoking one session more after any set of sessions is revoking the larger set: the result does not depend on the order of the loop |
| SessionTable.RevokeAllIsPurge | auth_service/infrastructure/redis/redis_token_store.py:164-172 | On agreeing families revoke-all removes exactly the user's access, refresh, hash and set entries and nothing of anyone else, although the set is deleted first |
| SessionTable.LiveAreStillMembers | auth_service/infrastructure/redis/redis_token_store.py:169-172 | While it runs, every live session of the user is in the part of the snapshot still to be revoked |
| SessionTable.StoreShowsTable | auth_service/infrastructure/redis/redis_token_store.py:73-96 | A jti is on the allowlist exactly when it is the current, unexpired jti of a row of the session table; a refresh token resolves exactly when it is the current, unconsumed token of a row; both name the row's user |
| SessionTable.ExecKeepsSound | auth_service/infrastructure/redis/redis_token_store.py:38-172 | Every operation and every wait keeps the agreement of the four families: each live entry is its session's current one, refresh entries end with their hash, and every live session is in its owner's set, which lasts at least as long |
| SessionTable.ExecRefines | auth_service/infrastructure/redis/redis_token_store.py:38-172 | Each operation on the four families is the corresponding operation on one table: session id to user, jti, token and expiry |
| SessionTable.RenewRefines | auth_service/application/commands/refresh_token.py:41-58 | With access TTL at most refresh TTL a refresh succeeds exactly when its token is live, and it updates exactly one row |
| SessionTable.RunRefines | auth_service/infrastructure/redis/redis_token_store.py:38-172 | Over every run of operations and waits the four families show exactly the table |
| SessionTable.AccessEndsFirstIff | auth_service/container.py:115-120 | In every run no allowlisted jti outlives its session, if and only if the configured access TTL does not exceed the refresh TTL |
| SessionTable.OtherUsersUnaffected | auth_service/presentation/graphql/mutations.py:126-136 | A login, a refresh with one's own token, an owner-checked revocation or a revoke-all by one user changes nothing that the store holds for any other user |
| TokenStore.RedisTokenStore.CreateSession | auth_service/infrastructure/redis/redis_token_store.py:38-71 | Writes all four entries, with their expiries, and nothing else |
| TokenStore.RedisTokenStore.GetSession | auth_service/infrastructure/redis/redis_token_store.py:73-78 | Returns the hash exactly when the key exists |
| TokenStore.RedisTokenStore.GetSessionByRefreshToken | auth_service/infrastructure/redis/redis_token_store.py:83-96 | Returns the owner exactly when the token was live, and the token is gone either way |
| TokenStore.RedisTokenStore.RotateSession | auth_service/infrastructure/redis/redis_token_store.py:98-143 | The store of the specification on success; unchanged when the hash is missing (InvalidTokenError) or has no user_id (KeyError) |
| TokenStore.RedisTokenStore.RevokeSession | auth_service/infrastructure/redis/redis_token_store.py:145-162 | Deletes what the hash refers to, the hash, and the session's place in its user's set |
| TokenStore.RedisTokenStore.RevokeAllUserSessions | auth_service/infrastructure/redis/redis_token_store.py:164-172 | The loop over the snapshot, in any order, revokes all members; on agreeing families nothing of the user is left and nothing else has changed |
| TokenStore.RefreshTokenHandler.Handle | auth_service/application/commands/refresh_token.py:35-58 | GETDEL then rotate: result and store for every outcome; a consumed token is not restored when the rotation fails |
| TokenStore.RevokeSessionHandler.Handle | auth_service/application/commands/revoke_session.py:20-46 | Revokes whatever session is named; the audited user is the one in the hash |
| TokenStore.AuthMutation.RevokeSession | auth_service/presentation/graphql/mutations.py:105-139 | A session is revoked exactly when the caller's jti is on the allowlist and the hash names the caller; each refusal is given exactly in its own case, and then nothing changes; other users' entries never change |
| FakeStore.FakeTokenStore.RotateSession | tests/unit/application/fakes.py:134-159 | Consumes the old token even when the session is missing; otherwise swaps the pair |
| FakeStore.FakeTokenStore.RevokeAllUserSessions | tests/unit/application/fakes.py:175-179 | The loop revokes the members in any order, then drops the set |
| FakeStore.LogoutAllMatches | tests/unit/application/fakes.py:161-179 | The fake's revoke-all, set last, and the Redis store's, set first, end in corresponding states |
| FakeStore.SameAnswers | tests/unit/application/fakes.py:89-179 | While no time passes no sequence of handler operations and queries tells the fake from the Redis store: every answer is equal |
| FakeStore.SameAnswersFromEmpty | tests/unit/application/fakes.py:89-179 | In particular from two empty stores |
| FakeStore.WaitMatchesIff | tests/unit/application/fakes.py:89-98 | The correspondence survives a wait exactly when no key of the Redis store ends in it |
| Keys.PayloadRoundTripIff | auth_service/infrastructure/redis/redis_token_store.py:92-96 | A payload is recovered exactly by the split at the first colon if and only if the user part has no colon |
| Keys.KeysAreInjective | auth_service/infrastructure/redis/redis_token_store.py:18-32 | The six key builders are injective and their ranges are pairwise disjoint |
| Keys.SessionKeyTexts | auth_service/infrastructure/redis/redis_token_store.py:18-32 | The four keys as they are written |
| Keys.OtherKeyTexts | auth_service/infrastructure/security/rate_limiter.py:80-114 | The rate-limit and idempotency keys as they are written |
| FlatRedis.OneRedisServesAll | auth_service/container.py:128-134 | In one Redis with string keys whatever a component sends has exactly its effect on that component's maps: the four session families, the counters and the idempotency records, each leaving the others as they were |
| FlatRedis.GetDelPayload | auth_service/infrastructure/redis/redis_token_store.py:87-96 | The payload that GETDEL returns, split at its first colon, names the token's owner and session, and there is none exactly when the token is not live |
| RateLimiting.RateLimiter.Check | auth_service/infrastructure/security/rate_limiter.py:66-101 | Counts accepted and rejected checks alike, never moves the end of a running window, starts one otherwise, and answers by the count |
| RateLimiting.RateLimiter.CheckIp | auth_service/infrastructure/security/rate_limiter.py:103-107 | check under the IP key |
| RateLimiting.RateLimiter.CheckEmail | auth_service/infrastructure/security/rate_limiter.py:109-114 | check under the normalised address |
| RateRuns.AcceptedIsBounded | auth_service/infrastructure/security/rate_limiter.py:45-50 | From any counter and for every interleaving of the callers' SET NX and INCR, at most (n + 1) * limit checks are accepted in any half-open interval of n windows; n = 1 is the documented burst of twice the limit |
| RateRuns.BoundIsReached | auth_service/infrastructure/security/rate_limiter.py:47-50 | The bound is exact: for every n > 0 and every window of at least two seconds a run, in time order and with one check per caller, reaches it |
| RateRuns.ChecksNeverExtend | auth_service/infrastructure/security/rate_limiter.py:82-87 | Whatever checks follow, a running window ends when it was going to, and the next one does not overlap it |
| RateRuns.RejectionEnds | auth_service/infrastructure/security/rate_limiter.py:89-99 | 1 <= retry_after <= window, and after that wait the first check starts a window with answer 1 or falls in one that began after the wait |
| RateRuns.PersistentIff | auth_service/infrastructure/security/rate_limiter.py:82-87 | A counter without expiry is left exactly when some caller's INCR comes at or after the end of the window that the latest SET NX before it found or opened |
| RateRuns.PersistentLocksOut | auth_service/infrastructure/security/rate_limiter.py:86-99 | Such a counter accepts what is left of one limit and then nothing, for ever |
| RateRuns.LapseCanHappen | auth_service/infrastructure/security/rate_limiter.py:82-87 | A run of two complete checks that leaves one |
| RateRuns.StraddlingCanBeHarmless | auth_service/infrastructure/security/rate_limiter.py:82-87 | A run in which a window ends between a caller's SET NX and INCR and no such counter is left, because another caller has opened the next window |
| Keys.RateKeysAgreeIff | auth_service/infrastructure/security/rate_limiter.py:103-114 | Two checks share a counter exactly when operation and dimension are the same and the IPs are equal or the addresses are the same Email |
| Emails.OneCounterPerEmail | auth_service/domain/value_objects/email.py:13-17 | lower().strip() and strip().lower() agree on every (ASCII) string, so spellings share a counter exactly when they are one Email |
| Emails.NormalForm | auth_service/domain/value_objects/email.py:13-17 | The normal form is the address without the white space around it, lowered letter by letter |
| Emails.LetterCodes | auth_service/domain/value_objects/email.py:14 | The capitals A to Z are lowered to a to z, by their codes; nothing else changes |
| Emails.WhiteSpaceIs | auth_service/domain/value_objects/email.py:14 | The characters that are stripped, by their codes |
| Middleware.GraphQLRateLimitMiddleware.Handle | auth_service/main.py:26-45 | By the published numbers of its operation: a request is forwarded exactly when it fits under each limit (an email limit only with an email), and each has then counted it in a window of its length; the first one exceeded answers with its Retry-After; operations without limits are not counted |
| Middleware.ForwardedIffWithinLimits | auth_service/main.py:100-113 | The same about the loop as a function, for all five operations |
| MiddlewareRuns.AloneIsDispatch | auth_service/main.py:100-113 | The steps of a request that nothing interrupts leave the counters, forward the request or not, and give the Retry-After, as the loop does |
| MiddlewareRuns.EventPaysBudget | auth_service/main.py:100-113 | Each SET NX and INCR of a request is paid for under its own key, and no other key's allowance changes |
| MiddlewareRuns.PassersAreBounded | auth_service/main.py:26-45 | For every run of requests whose round trips interleave in any way, every operation and each of its limits: at most (n + 1) * limit of the requests that the limit counts under one key pass it in any n windows |
| MiddlewareRuns.ForwardedHasPassed | auth_service/main.py:100-113 | A request is forwarded only after it has passed every limit that counts it, under its own key, between its arrival and then |
| MiddlewareRuns.ForwardedIsCounted | auth_service/main.py:26-53 | Every forwarded request of the five operations is among the passers under its IP, and every login or reset request with an email also under its address |
| MiddlewareRuns.ForwardedIsBounded | auth_service/main.py:26-45 | So at most (n + 1) * limit of them are forwarded, for all limits of all operations at once |
| MiddlewareRuns.PublishedLimits | auth_service/main.py:26-45 | In every run and any n windows: of all requests that arrive and are forwarded in that time at most n + 1 times the published number, for each of the seven limits, per IP and per account email with all its spellings |
| MiddlewareRuns.RejectedMustWait | auth_service/infrastructure/security/rate_limiter.py:89-99 | However the round trips interleave, a rejected request is told to wait at least a second |
| Idempotency.IdempotencyExtension.OnExecute | auth_service/presentation/graphql/idempotency.py:67-125 | Hit, conflict, miss with and without storing, and bypass: response, backend and store for each; bypass exactly for other operations or without a key; an error-free execution is stored for 86400 seconds |
| IdempotencyRuns.RetriesAreInvisible | auth_service/presentation/graphql/idempotency.py:95-114 | Deleting any of the requests that were answered from the store from a run leaves the backend, the store and all other responses as they were |
| IdempotencyRuns.FirstCallExecutes | auth_service/presentation/graphql/idempotency.py:92-125 | A login or reset request under a key without a live record executes; its response is stored exactly when it has data and no errors |
| IdempotencyRuns.RetriesWithinADay | auth_service/presentation/graphql/idempotency.py:87-125 | A login or reset request executed without error under a key without a record is answered from the store for every repetition less than 86400 seconds later, whatever comes between: its own response without execution for the same variables, the conflict otherwise |
| IdempotencyRuns.RetryAfterADayExecutes | auth_service/infrastructure/redis/idempotency_store.py:31-33 | From 86400 seconds on the repetition executes again |
| IdempotencyRuns.OthersBypass | auth_service/presentation/graphql/idempotency.py:68-80 | Other operations, and requests without a key, execute and leave the records alone |
| IdempotencyRuns.RetryIsAnswered | auth_service/presentation/graphql/idempotency.py:87-114 | Within 24 hours of an error-free execution and whatever comes between, a request with the same operation, key and variables gets the first response and executes nothing; it gets the conflict exactly when the variables differ |
| IdempotencyRuns.OtherDocumentGetsSameAnswer | auth_service/presentation/graphql/idempotency.py:87-101 | A body that differs in the query text only is no conflict: it gets the first response |
| IdempotencyRuns.ExecutionsAreBounded | auth_service/infrastructure/redis/idempotency_store.py:31-33 | At most n error-free executions under one operation and key in any n * 86400 seconds, so two are at least 86400 s apart |
| IdempotencyRaces.SecondExecutionOverlapped | auth_service/presentation/graphql/idempotency.py:92-125 | With GET, execution and SETEX as separate steps, in every interleaving: a second error-free execution within 24 hours is of a request whose GET came before the first one's SETEX |
| IdempotencyRaces.ExecutesAgainIff | auth_service/presentation/graphql/idempotency.py:92-125 | When an error-free execution has been stored, some continuation executes another request under its key within 24 hours, if and only if a request under the key is pending, one whose GET came before this SETEX |
| IdempotencyRaces.UninterruptedIsServe | auth_service/presentation/graphql/idempotency.py:92-125 | The three steps without interruption leave the backend and the records, and give the answer, of the request served alone |
| IdempotencyRaces.OverlapExecutesTwice | auth_service/presentation/graphql/idempotency.py:92-125 | A run in which two overlapping requests with one key both execute without error and both store |
| Accounts.PasswordResetToken.Consume | auth_service/domain/entities/password_reset_token.py:17-23 | Succeeds exactly strictly before expiry and unused; reports expiry exactly for an expired token, even a used one, and use exactly for a used one that has not expired; used is set on success only |
| Accounts.SqlResetTokenRepository.Save | auth_service/infrastructure/db/repositories/reset_token_repository.py:36-44 | Upsert; an existing row keeps its user |
| Accounts.SqlResetTokenRepository.FindByToken | auth_service/infrastructure/db/repositories/reset_token_repository.py:46-51 | The row with that token hash, or null when there is none |
| Accounts.SaveKeepsIndexIff | auth_service/infrastructure/db/repositories/user_repository.py:37-53 | Saving a user keeps the unique index on email exactly when no other user has the address; then the user is found by that address, no longer by an old one, and everyone else as before |
| Accounts.RequestPasswordResetHandler.Handle | auth_service/application/commands/request_password_reset.py:39-69 | Mails a user exactly when the normal form of the address is valid and leads to that user, and reports exactly why not otherwise; the user's rows are then replaced by one unused row for the token, everyone else's stay; no user has two rows afterwards if none had before |
| Accounts.ResetPasswordHandler.Handle | auth_service/application/commands/reset_password.py:36-63 | Succeeds exactly for a strong password and a token whose row is unexpired, unused and of an existing user, and reports a weak password exactly for a weak one; success changes one hash and one flag and revokes all the user's sessions; a failed reset changes nothing |
| Accounts.AuthenticateUserHandler.Handle | auth_service/application/commands/authenticate_user.py:67-107 | A session is created exactly for an existing, active user whose password verifies; otherwise nothing changes |
| Accounts.RegisterIff | auth_service/application/commands/register_user.py:29-44 | Registration succeeds exactly for a valid address that nobody has and a strong password; the user is active and can sign in |
| Accounts.MeIff | auth_service/presentation/graphql/queries.py:30-52 | me answers a user exactly for a jti on the allowlist and an existing, active user |
| Accounts.DeactivateChangesOnlyFlag | auth_service/domain/entities/user.py:20-21 | Deactivation changes one flag of one user |
| AccountRuns.RowsAreSingleValued | auth_service/infrastructure/db/repositories/reset_token_repository.py:46-51 | Between the requests of every serialised run: at most one row per user and unique token hashes, so find_by_token is single-valued |
| ResetSteps.SerialRowsAreSingle | auth_service/infrastructure/db/repositories/reset_token_repository.py:36-57 | With every statement a step: as long as the handlers of one user do not overlap, at most one row per user and unique token hashes after each statement, also between the statements of a handler and without rollback |
| ResetSteps.DigestsAreUnique | auth_service/infrastructure/db/repositories/reset_token_repository.py:46-51 | In every interleaving of requests and resets a token hash leads to at most one row after each statement |
| ResetSteps.SingleRowsIff | auth_service/infrastructure/db/repositories/reset_token_repository.py:36-57 | Over every interleaving: at most one row per user after each statement, exactly as long as no statement adds a row for a user while a row added earlier has not been deleted |
| ResetSteps.InsertDoublesIff | auth_service/application/commands/request_password_reset.py:51-68 | A request's INSERT leaves its user with two rows exactly when another handler has added a row for the user since this request's DELETE and no DELETE for the user has come after that |
| ResetSteps.OverlappingRequestsLeaveTwoRows | auth_service/application/commands/request_password_reset.py:51-68 | A run of two requests of one user, delete, delete, insert, insert, that leaves two unused tokens |
| ResetSteps.SecondUseOverlapped | auth_service/application/commands/reset_password.py:45-60 | Two resets save the same token, in any interleaving, only if both had found it before the first of them saved it |
| ResetSteps.OverlappingResetsUseTokenTwice | auth_service/application/commands/reset_password.py:45-60 | A run in which two resets find the same unused token and both save it |
| ResetSteps.SavesAgainIff | auth_service/application/commands/reset_password.py:45-60 | When a reset has saved its token, some continuation saves the same token again, if and only if another reset is under way that had found it before |
| ResetSteps.UninterruptedRows | auth_service/application/commands/reset_password.py:45-60 | Uninterrupted, the statements change the table as the handlers do |
| AccountRuns.ResetNeedsLatestToken | auth_service/domain/entities/password_reset_token.py:17-23 | A password changes only by a token emailed to that user, strictly before its expiry, only if it is the latest emailed to the user and has not changed a password before |
| AccountRuns.TokenChangesOnePassword | auth_service/domain/entities/password_reset_token.py:17-23 | Each emailed token causes at most one password change over the whole run |
| AccountRuns.MailIsFixed | auth_service/application/commands/request_password_reset.py:60-67 | An emailed token's expiry is its issue time plus the configured lifetime, for good |
| AccountRuns.ResetEndsEarlierSessions | auth_service/application/commands/reset_password.py:57-63 | After a successful reset no jti and no refresh token that the user had before is accepted again, in any continuation, and me answers None to it |
| AccountRuns.LoginNeedsNewPassword | auth_service/application/commands/authenticate_user.py:85-91 | After a reset and until the next one, a login as the user succeeds only with a password that verifies against the new hash |
| AccountRuns.NewPasswordWorks | auth_service/application/commands/reset_password.py:57-60 | The new password logs an active user in: a reset locks nobody out |
| AccountRuns.AskResetMailsIff | auth_service/application/commands/request_password_reset.py:44-69 | Over runs: a request mails the token to a user, as the latest, exactly when its address leads to that user; for any other address nothing changes |
| AccountRuns.ChangesIff | auth_service/application/commands/reset_password.py:43-60 | Over runs: a reset changes the password of a user if and only if the new one is strong and the token is the latest emailed to that user, unexpired and unspent |
| AccountRuns.FreshTokenResets | auth_service/application/commands/reset_password.py:43-60 | End to end: a reset with the token just mailed and a strong password changes the password, and an active user signs in with it |
| AccountRuns.SignInIff | auth_service/application/commands/authenticate_user.py:73-107 | Over runs: a sign-in logs a user in exactly when the address is of an existing, active user whose hash accepts the password, and otherwise changes nothing |
| AccountRuns.InactiveGetsNoSession | auth_service/application/commands/authenticate_user.py:85-87 | Over runs: once a user is inactive nothing gives them another session, and me answers None for them |

## Left out

- The GraphQL and web frameworks, the ORM, the Redis client, JWT signing and bcrypt: they appear as function parameters or as map operations.
- Extraction of the operation name and of the email from a request body (main.py:115 onwards, `_get_mutation_field_name`): the model starts from the extracted values, and an extracted email is a string.
- Requests that the middleware forwards before it looks at limits: other paths and methods, a body that is not JSON, no container (main.py:69-83).
- Resolution of the idempotency store (idempotency.py:56-65): a store is always there.
- SQL transactions: in `AccountRuns` the handlers run one at a time; in `ResetSteps`, where they overlap, each statement takes effect when it is executed, with no rollback, no row locks and no delay until commit, and only the token table is modelled.
- A user saved with an address that another user has (a violation of the unique index): `Accounts.SaveKeepsIndexIff` says when; no modelled handler does it.
- Audit events, structured logging, durations, the email transport, and the try/except blocks around them: they keep no state that the properties are about.
- The dummy hash for unknown emails (authenticate_user.py:75-81): a timing measure.
- The hash fields device_info, created_at and last_used, which no modelled code reads back.
- The email pattern and the password rules: uninterpreted predicates, so that the results hold for any.
- FakeStore.SameAnswers: compares get_session by presence and by which user it names; the fake returns the user id as a UUID under its own field names, Redis as text. The handlers convert with `UUID(str(...))`; the comparison at mutations.py:130 does not, and would refuse every owner on the fake.
- FakeStore.SameAnswersFromEmpty: the same.
- Emails.OneCounterPerEmail: ASCII only; Unicode lower-casing can change a string's length and its white space.
- The malformed-payload branch of get_session_by_refresh_token (redis_token_store.py:93-94): every payload that the store writes has a colon (`FlatRedis.GetDelPayload`).
- RateRuns.RejectionEnds: one clock reading for each check; for interleaved round trips the safety bound is proved, and lockout is characterised by `PersistentIff`.
- The moment at which a refresh generates its new jti and refresh token: it is that of the GETDEL, since no Redis command lies between and nobody else sees them before the transaction.
