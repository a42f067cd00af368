# Verified models of the platform's stateful cores

Each module models one stateful core of the platform and proves what that core is for: the
transactional outbox, the session protocol, rate limiting and lockout, second-factor enrolment,
the analytics ingest with its dedup LRU, the dialer's snapshot fan-out, the password-hash and AAD
codecs, the read-through query cache, the retrying publisher and the configuration broadcast.

Concurrent protocols are state machines over their atomic steps (a lock-protected section, a
statement of a transaction, one Redis command or script, one reading of the clock). Their theorems
hold in every state of every run, that is for every number of calls and replicas and every
interleaving, with accesses that fail at any step; the session, lockout and second-factor machines
and the rate limiter also have commands that run and lose their reply. Objects that change state in
place are classes whose methods are proved against a specification over the history of calls. The
relay, the session calls, the second-factor service, the ingest stream, the in-memory fan-out and
the configuration snapshot are both: a ghost field of the class is the state of the machine, and
every method takes it along a path of the machine, failed accesses included. The lockout is both but
not tied: its class covers calls one after another, its machine calls that overlap.

`dafny verify dfyconfig.toml` checks the whole project.

| files | core |
|---|---|
| `OutboxTable`, `OutboxProtocol`, `OutboxRelay` | outbox rows, any number of writers and relay replicas; the relay class with its drain and poll loops |
| `PublisherBackoff` | the retrying publisher and its capped exponential backoff in int64 arithmetic |
| `Session`, `SessionSafety`, `SessionReplay`, `SessionRevocation`, `SessionExpiry`, `SessionFactor`, `SessionCalls` | login, refresh rotation, replay, logout, revocation with key lifetimes; the calls as a class |
| `RateLimit`, `Lockout`, `LockoutSteps`, `Login` | the sliding window; the account lockout call by call and under overlapping calls; `Login` and `LoginTOTP` over both |
| `Totp`, `TotpService` | second-factor enrolment and backup codes, as interleaved transactions and as whole calls |
| `DedupLru`, `Ingest`, `IngestPipeline` | the dedup LRU, the interleaved handlers and flushes of one stream, the stream as a class |
| `PubSub`, `PubSubSafety`, `PubSubRuns`, `PubSubProgress`, `PubSubCalls` | the snapshot fan-out in small steps, in memory and over NATS; the in-memory calls as a class |
| `Phc`, `Aad` | the PHC string of Argon2id hashes, the additional-data envelope |
| `QueryCache` | the analytics queries behind an adversarial cache |
| `ConfigBroadcast`, `ConfigSnapshot` | the hot-reload broadcast of the latest configuration; the snapshot as a class |
| `Basics` | shared types and facts |

## Findings

Where the code does not do what it is documented to do, the models follow the code. A lemma then
shows the case on which the promise fails, and another says exactly when it holds.

- `PubSub.Close` may return while a channel is open. It does so exactly when that channel's
  `cancel` has taken it out of the map and not yet closed it (`CloseReturned`,
  `CloseBeforeCancelEnds`). A second `Close` racing the first returns before anything is closed
  (`SecondCloseReturnsEarly`); what is open then is leaving by its own `cancel` or still on the
  first one's list (`EarlyCloseReturned`). With no call under way after it, every channel is closed
  (`PubSubCalls.Hub.Close`).
- `NATSPubSub.Stop` and a `cancel` can block each other for ever: `Stop` holds the map lock and
  waits for a subscriber's `once`, the `cancel` inside that `once` waits for the lock. This pair is
  the only way the fan-out gets stuck (`SomeCallProceeds`), it is reachable (`StopMeetsCancel`,
  `StopCancelDeadlock`), and it lasts (`DeadPairForever`). The in-memory fan-out never gets stuck
  (`InMemoryNeverStuck`).
- A call validates its token first and asks for revocations later. If calls take at most `d`, a revoked
  session stays closed to access tokens if and only if revocation keys live at least as long as access
  tokens plus the validation leeway plus `d` (`RevivesIff`); no key lifetime is enough for calls of any
  length (`SlowCallIsLetIn`). Refresh tokens need less: keys that outlive whitelist entries are enough,
  without leeway and however slow the call (`RefreshDeadOnceRevoked`).
- A forced logout reads the clock and then writes the cutoff, so of two that overlap the one that
  read first may write last and take the other's cutoff back: a token issued in between is accepted
  at once, however long the keys live (`StaleCutAccepts`). A cutoff can be taken back before its key
  runs out if and only if a call that read an earlier second is still to write (`CutoffLapsesIff`).
  With no such call, and calls that take at most `d`, tokens stay out if and only if the cutoff key
  lives at least as long as access tokens plus the leeway plus `d` (`RevivesAfterCutIff`).
- `LoginTOTP` asks for no revocation: wherever the partial token validates, a right code gets a full
  pair, and while the user's cutoff lives the new access token is under it if and only if it is signed
  within the very second the cutoff read (`SecondFactorCompletes`, `FactorOutlivesCut`).
- The rate limiter reads the clock and then runs its pipeline, so a call that is overtaken by one with a
  later reading finds pruned what its own window still holds. If pipelines run at most `lag` after
  their readings, intervals of a given length hold at most the limit if and only if length plus lag is at
  most the window; a limit of one holds for the whole window, as long as length plus lag is below the
  key's lifetime (`BoundedIff`, `OvertakenIsAllowed`).
- The lockout's unlock time is documented never to move earlier. It does when a failure that read the
  clock first sets its key last (`UnlockMovesEarlier`), and, short of a reset, only then
  (`MovesEarlierIff`). Likewise a check after a reset can say locked (`ResetThenLocked`): without a
  further failure an account that is not locked is found locked later if and only if a failure is under
  way that has the clock still to read, or has read a second that has not come yet
  (`LocksUnprovokedIff`).
- `LoginTOTP` registers wrong codes with the lockout and never asks it: a full pair leaves exactly on
  a partial token and a right code (`LoginTotp`), also while the account is locked
  (`LockedYetLoggedIn`). `Login` hands out nothing while it is (`Login.Authenticator.Login`).
- The publisher's waits are based on min(max, initial * 2^(attempt-1)) at every attempt if and only if
  initial <= max and no doubling below the cap leaves int64 (`AlwaysCappedIff`). The first wait
  ignores the cap when `initial > max` (`BackoffIsCapped`), and every doubling from 2^62 on is
  negative (`OverflowIsNegative`). Waits lie below the base, never at it.
- The relay keeps publishing the rest of a batch after a row update has failed, although the
  transaction can no longer commit. So rows go out twice though marked once
  (`DuplicateAfterFailedUpdate`); those acknowledgements are the duplicates `RunSafety` counts.
- The user flag `totp_enabled` outlives an enrolment when an `Enroll` writes over an enrolment
  confirmed since its check (`StaleFlagReached`); the flag is exact throughout a run if and only if
  that never happens (`FlagExactIff`). In every interleaving a confirmed enrolment is flagged
  (`EnrolledIsFlagged`).
- The params of a password hash are documented to be exactly `m=,t=,p=` with their numbers. `decode`
  accepts more (`NotOnlyPrinted`), exactly: each number may follow blanks and begin with zeros, and behind
  the last there may be blanks, or blanks and a line feed followed by anything (`ParamsIff`).

## Model

| member | source | states |
|---|---|---|
| `OutboxProtocol.RunSafety` | pkg/outbox/relay.go:359-446 | in every run of any writers and relays, with rollbacks and crashes anywhere, attempts never pass MaxRetry, and a row's acknowledged publishes are one if it is marked plus those of rolled-back transactions |
| `OutboxProtocol.NothingLost` | pkg/outbox/relay.go:368-446 | no committed row is ever lost, rewritten or unmarked, and a parked row is never touched again |
| `OutboxProtocol.Exclusive` | pkg/outbox/relay.go:368-374 | two replicas never hold the same row |
| `OutboxProtocol.InvStep` | pkg/postgres/pool.go:222-244 | each step of writer, relay, commit or rollback keeps locks disjoint, transactions faithful to the broker's replies and acknowledgements conserved |
| `OutboxProtocol.CommitEffect` | pkg/outbox/relay.go:414-446 | a commit changes no row another transaction holds and marks exactly the rows it saw acknowledged |
| `OutboxProtocol.InFlightAfterEnd` | pkg/postgres/pool.go:222-244 | ending a transaction takes exactly its own acknowledgements out of flight |
| `OutboxRelay.SelectPending` | pkg/outbox/relay.go:368-374 | the drain query's answer: the oldest eligible unlocked rows, oldest first, up to the limit |
| `OutboxProtocol.DuplicateAfterFailedUpdate` | pkg/outbox/relay.go:398-446 | a reachable state, for every event and configuration with two rows to a batch, in which a row marked once has been acknowledged twice |
| `OutboxProtocol.ReachesOn` | pkg/outbox/relay.go:336-350 | paths of the protocol compose |
| `OutboxRelay.MidBatchStep` | pkg/outbox/relay.go:414-446 | handling one row is one step of the protocol, also after an update has failed: it is published, and its update is lost |
| `OutboxRelay.TxEnd` | pkg/postgres/pool.go:222-244 | the end of a pass is one step of the protocol: the whole batch is applied, or nothing when an update or the commit failed |
| `OutboxRelay.PassSpendsBudget` | pkg/outbox/relay.go:336-350 | every non-empty pass strictly lowers the sum of MaxRetry minus attempts over eligible rows |
| `OutboxRelay.PassProgress` | pkg/outbox/relay.go:359-412 | with every publish acknowledged, a pass continues the created_at order over batches and leaves the rest untouched |
| `OutboxRelay.Relay.constructor` | pkg/outbox/relay.go:105-123 | batch size and MaxRetry default to 100 and 10 |
| `OutboxRelay.Relay.HandleBatch` | pkg/outbox/relay.go:398-446 | publishes every row of the batch once in order, along a path of the protocol, and holds the updates of all of them unless an update failed |
| `OutboxRelay.Relay.DrainOnce` | pkg/outbox/relay.go:359-412 | one pass handles exactly the batch, or leaves the table alone when the query, an update or the commit fails; in each case it is a path of the replicated protocol |
| `OutboxRelay.Relay.DrainPass` | pkg/outbox/relay.go:336-350 | a pass that goes through spends retry budget and continues the order; one that finds nothing ends the drain; one that fails loses nothing |
| `OutboxRelay.Relay.DrainUntilEmpty` | pkg/outbox/relay.go:336-350 | terminates; on success every row is published or out of attempts, and if every publish succeeds the eligible rows go out once each in created_at order |
| `OutboxRelay.QueryParked` | pkg/outbox/relay.go:277-300 | the groups are the labels with parked rows, each once, with exact counts |
| `OutboxRelay.Relay.PollOnce` | pkg/outbox/relay.go:277-332 | after a successful poll the gauge shows exactly the tenants with parked rows and their counts, and equals the tracked set; a failed poll, or one without metrics, changes neither |
| `PublisherBackoff.BackoffBase` | pkg/outbox/publisher.go:140-150 | the loop computes repeated int64 doubling with the cap |
| `PublisherBackoff.BackoffIsCapped` | pkg/outbox/publisher.go:140-150 | where no doubling below the cap leaves int64, the base is min(max, initial * 2^(attempt-1)) if and only if initial <= max or attempt >= 2 |
| `PublisherBackoff.OverflowIsNegative` | pkg/outbox/publisher.go:140-157 | whenever a base below the cap reaches 2^62, the next one is negative |
| `PublisherBackoff.AlwaysCappedIff` | pkg/outbox/publisher.go:140-150 | for all positive int64 values, every attempt has the capped base if and only if initial <= max and no doubling below the cap reaches 2^62 |
| `PublisherBackoff.OptionsKeepPositive` | pkg/outbox/publisher.go:46-69 | whatever the options say, attempts and both bounds stay positive, and the defaults are capped at every attempt |
| `PublisherBackoff.Backoff` | pkg/outbox/publisher.go:140-157 | the wait lies in [0, base), and is zero for a base that is not positive |
| `PublisherBackoff.Publish` | pkg/outbox/publisher.go:91-138 | at most maxAttempts upstream calls, exactly that many on exhaustion, one wait after each failed attempt but the last, total wait below the sum of the bases |
| `SessionSafety.InvStep` | internal/auth/service/authenticator.go:435-620 | every step of every call keeps ids fresh, refresh ids unique to one call, spent ids off the whitelist and pairs in their session |
| `SessionSafety.RotatedAtMostOnce` | internal/auth/store/refresh_store.go:76-90 | in every run no refresh id is rotated twice |
| `SessionSafety.RedeemedAtMostOnce` | internal/auth/service/authenticator.go:486-570 | each refresh id is redeemed by at most one successful Refresh |
| `SessionSafety.RotationReplaces` | internal/auth/service/authenticator.go:502-541 | a rotation replaces exactly one live id by one id never seen before, with the same user, tenant and session on record |
| `SessionSafety.RefreshContinues` | internal/auth/service/authenticator.go:543-569 | the new pair has the user, tenant, login, roles, session and TOTPDone of the redeemed token, under another id |
| `SessionSafety.RefreshTokensAreComplete` | internal/auth/service/authenticator.go:693-750 | every refresh token ever signed has TOTPDone, and its id is its own |
| `SessionReplay.ReplayRevokes` | internal/auth/service/authenticator.go:520-540 | in every run a call that presents a rotated id while its trail lasts, and returns without a failed access, reports the replay and has revoked the session on the way |
| `SessionReplay.ReplayEndsSession` | internal/auth/service/authenticator.go:486-540 | an id rotated by one call and presented by another while the trail lasts ends with the session revoked, and no call starting later takes a token of it past the session check while the key lasts |
| `SessionRevocation.TimedStep` | internal/auth/service/jwt_issuer.go:109-162 | keys and tokens never outlive their configured lifetimes counted from now |
| `SessionRevocation.PathKeys` | internal/auth/service/session_revoker.go:75-100 | later writes never shorten the life of a revocation or cutoff key |
| `SessionRevocation.RevokedIsRefused` | internal/auth/service/session_revoker.go:128-157 | from a revocation until its key runs out no call takes a token of the session past the session check |
| `SessionRevocation.CutOffIsRefused` | internal/auth/service/session_revoker.go:91-157 | while a user cutoff lasts, and no call that read an earlier second was still to write when it was set, no call takes a token with iat at or before it past the checks |
| `SessionRevocation.CutoffLapsesIff` | internal/auth/service/session_revoker.go:91-100 | a cutoff can be taken back before its key runs out if and only if a call that read an earlier second is still to write |
| `SessionRevocation.RefusedWhileValid` | internal/auth/service/authenticator.go:486-619 | every later call refuses a token of a revoked session for as long as it would validate, if the key outlives the token's expiry plus leeway |
| `SessionRevocation.CutOffWhileValid` | internal/auth/service/authenticator.go:486-619 | the same for a user cutoff with no earlier reading still to be written, and the tokens with iat at or before it |
| `SessionRevocation.KeyOutlivesToken` | internal/auth/service/session_revoker.go:56-83 | a key just written does, for every token issued so far, if keys live as long as tokens plus leeway |
| `SessionRevocation.CutoffOutlivesToken` | internal/auth/service/session_revoker.go:20-100 | so does a cutoff key just written |
| `SessionRevocation.ReadCovers` | internal/auth/service/session_revoker.go:91-95 | the second a forced logout reads covers every token issued by then |
| `SessionRevocation.NeverRedeemed` | internal/auth/service/authenticator.go:492-541 | a refresh id off the whitelist by the time its session's revocation key runs out is never redeemed again, however late |
| `SessionRevocation.RefreshDeadOnceRevoked` | internal/auth/service/authenticator.go:520-600 | with revocation keys at least as long as whitelist entries, a handed-out refresh token of a revoked session is never redeemed |
| `SessionExpiry.LongKeysHold` | internal/auth/service/session_revoker.go:128-157 | keys as long as access tokens plus leeway plus the longest call keep every access token of a revoked session out |
| `SessionExpiry.ShortKeysFail` | internal/auth/service/jwt_issuer.go:174-182 | for every shorter key lifetime a run exists in which a call no longer than that lets such a token in |
| `SessionExpiry.RevivesIff` | internal/auth/service/authenticator.go:575-619 | a call that starts after the revocation and takes at most d lets an access token of the session in if and only if access lifetime plus leeway is positive and the key lifetime is below it plus d; for refresh tokens, with which one logs out, that live at least a second |
| `SessionExpiry.SlowCallIsLetIn` | internal/auth/service/authenticator.go:606-619 | for every key lifetime a call that takes as long as the key lives lets a token of the revoked session in |
| `SessionExpiry.RevivesAfterCutIff` | internal/auth/service/session_revoker.go:20-100 | the same equivalence for the user cutoff key, once no earlier reading is still to be written |
| `SessionExpiry.StaleCutAccepts` | internal/auth/service/session_revoker.go:91-100 | for every key lifetime a run exists in which an earlier reading is written last and a cut-off token is accepted |
| `SessionFactor.SecondFactorCompletes` | internal/auth/service/authenticator.go:435-480 | wherever a partial token validates, a right code can end in a full pair, whatever is revoked or cut off; its access token is under a living cutoff if and only if signed in the second the cutoff read, and in a revoked session if and only if the partial one was |
| `SessionFactor.FactorOutlivesCut` | internal/auth/service/authenticator.go:435-480 | a run in which a forced logout covers the partial token, with no earlier reading pending, and the second factor still ends in an access token that is let in while the cutoff lives |
| `SessionCalls.Authenticator.ValidateToken` | internal/auth/service/jwt_issuer.go:174-205 | valid exactly when signed, of the right type and within expiry and issue time with leeway |
| `SessionCalls.Authenticator.RevokeAllForUser` | internal/auth/service/session_revoker.go:91-100 | the cutoff becomes the second read, for the whole key lifetime, or stays as it was when the write fails |
| `SessionCalls.Authenticator.ValidateAccessToken` | internal/auth/service/authenticator.go:606-619 | accepts exactly the tokens that validate and that neither key revokes, both checks having answered |
| `SessionCalls.Authenticator.RefreshTokens` | internal/auth/service/authenticator.go:486-570 | succeeds exactly when the token validates, is not revoked, its id is listed and untrailed and no access fails; the pair continues the session; a replay leaves the session revoked unless that write fails |
| `SessionCalls.Authenticator.LogoutSession` | internal/auth/service/authenticator.go:575-600 | an invalid token is accepted silently; a valid one is off the whitelist unless the delete fails, and its session revoked unless that fails, which alone fails the call |
| `SessionCalls.Authenticator.IssueFullPair` | internal/auth/service/authenticator.go:693-750 | a pair with TOTPDone, in the given or a fresh session, handed out exactly when signing and saving succeed, and then its refresh id is listed |
| `RateLimit.FoundIsRecent` | internal/auth/service/ratelimit.go:125-146 | after pruning and expiry a pipeline finds at least what all attempts ever recorded count in the window up to its run, and at most what they count in the window up to its reading |
| `RateLimit.ExpiredMeansEmpty` | internal/auth/service/ratelimit.go:139 | when a key expires, every attempt under it has left the window |
| `RateLimit.AtMostMaxPerWindow` | internal/auth/service/ratelimit.go:125-146 | in every history of overlapping calls whose pipelines run at most lag after their readings, every closed interval of length window minus lag holds at most max allowed attempts |
| `RateLimit.AtMostOnePerWindow` | internal/auth/service/ratelimit.go:125-146 | with a limit of one every closed interval of length window does, while length plus lag is below the key's lifetime |
| `RateLimit.OvertakenIsAllowed` | internal/auth/service/ratelimit.go:125-146 | for every limit of two or more and every longer interval, a history in which an overtaken call is allowed beyond the limit |
| `RateLimit.BoundedIff` | internal/auth/service/ratelimit.go:46-50 | for every window, limit, lag and length, exactly when no history exceeds the limit within that length |
| `RateLimit.RateLimiter.constructor` | internal/auth/service/ratelimit.go:69-95 | limits and window default to 30, 10 and one hour |
| `RateLimit.RateLimiter.Allow` | internal/auth/service/ratelimit.go:125-146 | allows whenever fewer than the limit of all past attempts, allowed or refused, lie in the window up to its reading, and only if fewer lie in the window up to its run, which is exact when it runs at once; records the attempt, also when only the reply is lost |
| `RateLimit.RateLimiter.AllowIP` | internal/auth/service/ratelimit.go:103-105 | the same for an address, leaving every other key's answers as they were |
| `RateLimit.RateLimiter.AllowAccount` | internal/auth/service/ratelimit.go:110-112 | the same for an account |
| `RateLimit.RateLimiter.WindowNeverExceeded` | internal/auth/service/ratelimit.go:125-146 | in every state of the limiter no interval shorter than the window by the longest call exceeds the limit of any key |
| `Lockout.StreakMeaning` | internal/auth/service/lockout.go:103-121 | a streak is an unbroken row of failures within the counter's life, starting after a reset or after the previous counter expired |
| `Lockout.LockedByLast` | internal/auth/service/lockout.go:84-93 | locked, by any locking failure since the last reset, means locked by the latest of them |
| `Lockout.StaysLocked` | internal/auth/service/lockout.go:95-135 | for calls one after another: once locked, no further failures bring the unlock earlier |
| `Lockout.ClearedUnlocks` | internal/auth/service/lockout.go:139-144 | a reset unlocks and ends the streak |
| `Lockout.CounterStep` | internal/auth/service/lockout.go:103-121 | the counter, with its expiry set by the first failure only, is the length of the streak |
| `Lockout.LockoutRedis.IsLocked` | internal/auth/service/lockout.go:84-93 | locked exactly when a failure since the last reset locked past now; the key's own expiry never changes the answer |
| `Lockout.LockoutRedis.RegisterFailure` | internal/auth/service/lockout.go:103-135 | for calls one after another: returns true exactly when the streak has reached the threshold, and then the account is locked at every instant before the second in which the term ends |
| `Lockout.LockoutRedis.Reset` | internal/auth/service/lockout.go:139-144 | the account is unlocked at every later instant |
| `LockoutSteps.InvStep` | internal/auth/service/lockout.go:84-144 | every Redis command and clock reading of every call keeps the numbers drawn by INCR unique to one call, gapless within a streak, and the until-key at least as long as the second it names |
| `LockoutSteps.OneCrosses` | internal/auth/service/lockout.go:36-40 | however failures overlap, once a streak has reached the threshold exactly one of its calls drew that number; it has reported the lock, is on its way to set it, or the store failed it |
| `LockoutSteps.MovesEarlierIff` | internal/auth/service/lockout.go:95-135 | without a reset the unlock can move earlier if and only if a call that read an earlier clock is still to set its second |
| `LockoutSteps.UnlockMovesEarlier` | internal/auth/service/lockout.go:95-135 | for every rule, a run in which it does |
| `LockoutSteps.CheckIsRight` | internal/auth/service/lockout.go:84-93 | a check begun while locked until a second, with no earlier reading still to be set and no reset, answers unlocked only once that second has come |
| `LockoutSteps.LocksUnprovokedIff` | internal/auth/service/lockout.go:84-144 | from any reachable state that is not locked now, after a reset or because the lock ran out, a later check answers locked without a further failure if and only if a failure at the threshold has the clock still to read or has read a second that has not come |
| `LockoutSteps.ResetThenLocked` | internal/auth/service/lockout.go:103-144 | for every rule of at least a second, a run in which a reset has returned and the next check says locked |
| `Login.Authenticator.Preflight` | internal/auth/service/authenticator.go:292-367 | passes exactly the found, unarchived, unlocked accounts within both limits |
| `Login.Authenticator.VerifyPassword` | internal/auth/service/authenticator.go:375-420 | proceeds exactly on a right password that need not be changed; a wrong one is a failure event, a right one a reset |
| `Login.Authenticator.Login` | internal/auth/service/authenticator.go:252-285 | no token while locked, and no failure registered then; tokens exactly for admitted callers with the right password; a partial one exactly when a second factor is due |
| `Login.Authenticator.LoginTotp` | internal/auth/service/authenticator.go:435-480 | a full pair exactly on a partial token and a right code, whatever the lockout says; a wrong code is a failure event, nothing else touches the lockout |
| `Login.Authenticator.LockedYetLoggedIn` | internal/auth/service/authenticator.go:435-480 | as many wrong codes as the threshold lock any account never failed before, and the right code still gets the full pair |
| `Totp.MarkConserves` | internal/auth/store/totp_store.go:210-232 | array_remove drops every copy, so used plus left is conserved if and only if the hash was stored once, which salting guarantees |
| `Totp.InvStep` | internal/auth/service/totp.go:226-451 | every transaction of every call keeps each issued hash either stored or used up by one call |
| `Totp.AcceptedAtMostOnce` | internal/auth/service/totp.go:366-426 | in every interleaving a stored hash leads to at most one accepted Verify |
| `Totp.TenPerEnrolment` | internal/auth/service/totp.go:558-575 | per enrolment, hashes used up plus hashes left are ten, also when a use committed and its reply was lost |
| `Totp.FlagExactIff` | internal/auth/service/totp.go:226-301 | the user flag is exact throughout a run if and only if no Enroll in it writes over a confirmed enrolment |
| `Totp.StaleFlagReached` | internal/auth/service/totp.go:226-301 | a reachable state with the flag set over an unconfirmed row, in which a right code is refused as not enrolled |
| `Totp.EnrolledIsFlagged` | internal/auth/service/totp.go:308-350 | in every interleaving a confirmed enrolment is flagged |
| `TotpService.Service.Enroll` | internal/auth/service/totp.go:226-301 | ten fresh unconfirmed codes, unless already confirmed or an access fails; a path of the machine |
| `TotpService.Service.Confirm` | internal/auth/service/totp.go:308-350 | confirms and flags exactly on a right code, and again without effect; a path of the machine |
| `TotpService.Service.Verify` | internal/auth/service/totp.go:366-426 | the current code, or the first stored hash the code opens, which no earlier call used up and this one does; a path of the machine |
| `TotpService.Service.Disable` | internal/auth/service/totp.go:436-451 | row gone and flag cleared together, or neither; a path of the machine |
| `DedupLru.RecencyOrder` | internal/analytics/service/dedup_lru.go:98-126 | the list is ordered by last Add, newest first |
| `DedupLru.KeptIffSeenRecently` | internal/analytics/service/dedup_lru.go:98-126 | an id is among the cap most recent distinct ids if and only if it was added with fewer than cap distinct others since |
| `DedupLru.TouchKeepsNewest` | internal/analytics/service/dedup_lru.go:98-126 | updating the bounded list is the same as bounding the full recency list |
| `DedupLru.DedupLRU.Add` | internal/analytics/service/dedup_lru.go:98-126 | duplicate exactly when seen recently; list and index stay the cap newest ids, each pointing at its own node |
| `DedupLru.DedupLRU.PushNew` | internal/analytics/service/dedup_lru.go:110-126 | evicts exactly when full, then pushes a fresh node |
| `DedupLru.DedupLRU.Has` | internal/analytics/service/dedup_lru.go:134-139 | tells whether the id was seen recently, changing nothing |
| `DedupLru.DedupLRU.Len` | internal/analytics/service/dedup_lru.go:144-148 | the number of remembered ids, at most cap |
| `Ingest.InvStep` | internal/analytics/service/ingest.go:315-358 | every step of handlers and flushers, of a handler that is in one place at a time, keeps the append order, the freshness of accepted entries and a flush owed for every full buffer |
| `Ingest.CountedStep` | internal/analytics/service/ingest.go:315-358 | every step keeps handlers in one place at a time and each received message counted exactly once |
| `Ingest.RunConserves` | internal/analytics/service/ingest.go:315-495 | received is dead-lettered plus dedup hits plus decoded, accepted, buffered, in flight, inserted and failed rows; batches then buffer are the append order; a full buffer always has a handler that owes a flush |
| `Ingest.WithinHorizonIsDup` | internal/analytics/service/dedup_lru.go:98-126 | a delivery with fewer than cap distinct others since an earlier one is a duplicate |
| `Ingest.StoreAtMostOnce` | internal/analytics/service/ingest.go:315-495 | deliveries of one event id within the dedup horizon reach the store at most once |
| `IngestPipeline.StreamPipeline.Receive` | internal/analytics/service/ingest.go:315-334 | one step of the machine: poison is dead-lettered, a decoded row goes on |
| `IngestPipeline.StreamPipeline.Probe` | internal/analytics/service/ingest.go:336-343 | one step: the real LRU answers as the history of probes demands |
| `IngestPipeline.StreamPipeline.Append` | internal/analytics/service/ingest.go:345-356 | one step: the row is appended, and full is reported exactly when the buffer has reached the batch size |
| `IngestPipeline.StreamPipeline.Take` | internal/analytics/service/ingest.go:470-479 | one step: the buffer is swapped out whole, or nothing if empty |
| `PubSubSafety.InvStep` | internal/dialer/pubsub.go:95-229 | every step of every call, in both variants, keeps the map, the channels, the closing call and the deliveries consistent |
| `PubSubRuns.NeverPanics` | internal/dialer/pubsub.go:95-229 | in every reachable state no panic has escaped and no call is about to raise one |
| `PubSubRuns.RunExclusion` | internal/dialer/pubsub.go:95-229 | the write lock excludes writers and readers throughout every run |
| `PubSubRuns.ClosedAtMostOnce` | internal/dialer/pubsub.go:111-141 | in every run each channel is closed at most once |
| `PubSubRuns.CancelReturned` | internal/dialer/pubsub.go:111-141 | when cancel has returned its channel is closed |
| `PubSubRuns.CloseReturned` | internal/dialer/pubsub.go:211-229 | when the closing Close has returned, a channel is open if and only if its cancel is between unlinking and closing it |
| `PubSubRuns.StopReturned` | internal/dialer/pubsub_nats.go:171-186 | when any Stop has returned, the same holds in the NATS variant |
| `PubSubRuns.CloseBeforeCancelEnds` | internal/dialer/pubsub.go:211-229 | a reachable state in which Close is back and a channel is open |
| `PubSubRuns.SecondCloseReturnsEarly` | internal/dialer/pubsub.go:211-217 | a reachable state in which a second Close is back before any channel is closed |
| `PubSubRuns.EarlyCloseReturned` | internal/dialer/pubsub.go:211-229 | whenever such a Close is back, each channel is closed, leaving by its cancel, or on the closing call's list; once the closing call is back too, it is open exactly while leaving |
| `PubSubRuns.ContentsStep` | internal/dialer/pubsub.go:189-205 | a step changes the contents of one channel only, by a send to it that finds room |
| `PubSubRuns.DeliveredAtMostOnce` | internal/dialer/pubsub.go:150-182 | each subscriber has each publish at most once, only of its own key, and at most 16 waiting |
| `PubSubRuns.PublishReaches` | internal/dialer/pubsub.go:150-205 | a returned Publish reached exactly the subscribers its key had when it read the map, but for those whose own channel was full or closed at their turn |
| `PubSubProgress.SomeCallProceeds` | internal/dialer/pubsub_nats.go:171-277 | while a call has not returned some call can step, readers yielding to waiting writers, unless Stop and a cancel block each other |
| `PubSubProgress.ActIsEnabled` | internal/dialer/pubsub.go:95-229 | a call that can act has a step to take |
| `PubSubProgress.InMemoryNeverStuck` | internal/dialer/pubsub.go:95-229 | no reachable state of the in-memory fan-out with an unfinished call is stuck |
| `PubSubProgress.DeadPairStays` | internal/dialer/pubsub_nats.go:171-277 | no step of anybody ends the standoff of Stop and cancel |
| `PubSubProgress.DeadPairForever` | internal/dialer/pubsub_nats.go:171-277 | from then on neither returns and every call waiting for the lock waits for ever |
| `PubSubProgress.StopMeetsCancel` | internal/dialer/pubsub_nats.go:171-277 | wherever a cancel waits for the lock, a Stop starting now and visiting its subscription first is stuck with it |
| `PubSubProgress.StopCancelDeadlock` | internal/dialer/pubsub_nats.go:171-277 | the stuck state is reachable with one subscriber |
| `PubSubCalls.Hub.Subscribe` | internal/dialer/pubsub.go:95-143 | appends an open channel to its key's slot, or refuses after Close |
| `PubSubCalls.Hub.Filter` | internal/dialer/pubsub.go:118-124 | the loop removes exactly the subscription |
| `PubSubCalls.Hub.Cancel` | internal/dialer/pubsub.go:111-141 | closes its own channel and takes it out of the map, touches no other, and does nothing the second time |
| `PubSubCalls.Hub.QuietSlots` | internal/dialer/pubsub.go:95-229 | with no call under way the map holds exactly the open channels, each under its key |
| `PubSubCalls.Hub.SafeSend` | internal/dialer/pubsub.go:189-205 | appends to an open channel with room, otherwise changes nothing |
| `PubSubCalls.Hub.Publish` | internal/dialer/pubsub.go:150-182 | offers the snapshot once to each subscriber of the key and to nobody else |
| `PubSubCalls.Hub.Close` | internal/dialer/pubsub.go:211-229 | run alone, every channel ever handed out is closed afterwards |
| `Phc.ScanSpelled` | pkg/passwords/encoding.go:98-103 | blanks and digits are scanned as their value, and the scan stops before what follows |
| `Phc.ParamsIff` | pkg/passwords/encoding.go:90-105 | for every string and values: scanned so if and only if each prefix is followed by blanks and digits of that value below its bound, and then an ignored tail |
| `Phc.NotOnlyPrinted` | pkg/passwords/encoding.go:90-105 | for all values, params with a blank before a number and junk on a further line are accepted |
| `Phc.Base64RoundTrip` | pkg/passwords/encoding.go:40-113 | unpadded base64, decoded with line breaks skipped, gives the same bytes, for every byte string |
| `Phc.EncodeParts` | pkg/passwords/encoding.go:40-48 | the printed string splits on the dollar sign into its six fields |
| `Phc.RoundTrip` | pkg/passwords/encoding.go:40-125 | decode of encode gives back memory, iterations, parallelism, salt and key, with the byte counts as lengths |
| `Phc.EncodeInjective` | pkg/passwords/encoding.go:40-48 | equal strings come from equal costs, salt and key |
| `Phc.DecodeNormalises` | pkg/passwords/encoding.go:59-125 | printing whatever decode accepted, blanks and line breaks included, and decoding again gives the same result |
| `Aad.ReadWritten` | pkg/encryption/aad.go:38-51 | reading a written varint gives the number and the rest |
| `Aad.UvarintLength` | pkg/encryption/aad.go:41-43 | a varint takes at most k bytes if and only if the number is below 128^k |
| `Aad.UuidTextInjective` | pkg/encryption/aad.go:39 | the text of a uuid determines the uuid |
| `Aad.EnvelopeRecovered` | pkg/encryption/aad.go:38-51 | a parser recovers the three strings whatever bytes follow |
| `Aad.EnvelopePrefixFree` | pkg/encryption/aad.go:38-51 | no envelope is a prefix of another; equal envelopes have equal parts |
| `Aad.BuildAAD` | pkg/encryption/aad.go:38-51 | the appended bytes are the envelope, at most 30 bytes longer than the three strings |
| `Aad.AppendUvarint` | pkg/encryption/aad.go:44-49 | the loop appends exactly the varint |
| `QueryCache.QueryService.Calls` | internal/analytics/service/query.go:196-226 | answers as the uncached service does, whatever the cache does; caches the answer exactly when it came from the store and the write went through |
| `QueryCache.QueryService.OperatorState` | internal/analytics/service/query.go:229-259 | the same |
| `QueryCache.QueryService.RegionRows` | internal/analytics/service/query.go:303-318 | one row per region, in whatever order the map is ranged |
| `QueryCache.QueryService.RegionProgress` | internal/analytics/service/query.go:264-322 | the same up to row order; CRM failure gives plan 0 |
| `QueryCache.QueryService.Hourly` | internal/analytics/service/query.go:325-353 | the same |
| `QueryCache.QueryService.Compare` | internal/analytics/service/query.go:389-400 | the loops mark every operator against the quotient of the float sum in row order, whatever the arithmetic rounds to |
| `QueryCache.QueryService.OperatorComparisons` | internal/analytics/service/query.go:362-404 | the same |
| `QueryCache.QueryService.CacheSet` | internal/analytics/service/query.go:497-510 | a write, or its loss, keeps every cached value what the uncached service answers |
| `QueryCache.QueryService.GetOverview` | internal/analytics/service/query.go:415-468 | succeeds exactly when each part would uncached, with the same parts |
| `QueryCache.RegionAnswersAgree` | internal/analytics/service/query.go:264-322 | two answers to one region query are the same set of rows, each once |
| `ConfigBroadcast.RunInv` | pkg/config/load.go:58-103 | every step of producer, listeners and subscribers keeps slots in order and validated |
| `ConfigBroadcast.ReplaceNeverBlocks` | pkg/config/load.go:87-103 | in every reachable state the next step of replace can be taken |
| `ConfigBroadcast.ReplaceReturns` | pkg/config/load.go:87-103 | in every run, from the moment it holds the lock its own steps so far plus those left never exceed three per listener and one, whatever the listeners do |
| `ConfigBroadcast.NewestDelivered` | pkg/config/load.go:87-103 | when replace has returned every joined listener holds the newest config or has received it |
| `ConfigBroadcast.ReceivedInOrder` | pkg/config/load.go:160-237 | a listener receives an in-order subsequence of the replaced configs, all validated |
| `ConfigSnapshot.Snapshot.Subscribe` | pkg/config/load.go:58-64 | one step: a listener with an empty slot joins |
| `ConfigSnapshot.Snapshot.TrySend` | pkg/config/load.go:92-94 | one step: the send succeeds exactly on an empty slot |
| `ConfigSnapshot.Snapshot.Drain` | pkg/config/load.go:95-99 | one step: the slot is empty, whoever emptied it |
| `ConfigSnapshot.Snapshot.Resend` | pkg/config/load.go:100 | one step: the blocking send finds the slot empty |
| `ConfigSnapshot.Snapshot.Replace` | pkg/config/load.go:87-103 | the value is swapped and every listener's slot holds the new config |
| `ConfigSnapshot.Snapshot.Get` | pkg/config/load.go:51-53 | the current value, always validated |
| `ConfigSnapshot.Snapshot.HandleReloadEvent` | pkg/config/load.go:222-237 | replaces exactly on a write or creation of the file that parses and validates; otherwise nothing changes |

## Left out

- Composition roots, module registration, HTTP and gRPC handlers, health checks: wiring and I/O.
- Clients of NATS, Redis, Postgres and ClickHouse: modelled by the contracts the cores rely on (row locks, transactions that apply whole or not at all, atomic scripts and pipelines, expiring keys).
- Argon2, AES-GCM, HMAC, SHA-256 and gzip, and the wall-clock uniformity of the dummy verify: a signed token is a record nobody forges, salted hashes and random ids never repeat, cache keys do not collide, JSON round trips exactly.
- Clocks: each model has one non-decreasing clock, shared by the program and Redis; skew between replicas is not modelled.
- Metrics, logging, audit rows and redaction: only the counters the theorems speak of.
- SQL text and the batch inserts of analytics: their meaning lives in the database.
- How 64-bit floats round: `QueryCache` takes their arithmetic as given functions, so its results hold for every rounding.
- The run loops around the drain, the gauge poll and the ingest ticker: tickers and cancellation only decide when the modelled calls happen.
- JSON well-formedness of outbox payloads, `PublisherAdapter` without an upstream, and its event validation.
- NATS: `Start`, the publish to the bus and message decoding; the local fan-out, `Subscribe`, `cancel` and `Stop` are modelled.
- The insert of a taken batch in `IngestPipeline`: its outcome is a step of the machine in `Ingest` only.
- Aliasing of the subscriber slices that `cancel` filters in place: slots are values, which is sound because `Publish` copies the slot under the lock.
- The expiry stored inside a refresh record: no decision reads it. A whitelist lifetime below one second, which the rotation script would reject.
- RateLimit.RateLimiter.Allow: a failed pipeline has run whole or not at all; a server that ran only its first commands is not modelled.
- Lost replies in the classes: the machines have commands that ran and lost their reply; the methods of the tied classes have accesses that fail without effect, and the relay's failed commit is one that was rolled back.
- Lockout.LockoutRedis.RegisterFailure: one whole call after another; `LockoutSteps` has its accesses as steps.
- Lockout.StaysLocked: the same; `MovesEarlierIff` is the statement for overlapping calls.
- Sub-second roundings of the lockout keys' lifetimes by the Redis client: the lifetimes are taken as configured.
- Password-hash strings that are not valid UTF-8.
- TOTP code arithmetic and secret encryption: whether a code is right, or opens a hash, is an input; `Status` only reads.
- TTL choice of the query cache and per-tenant invalidation: an adversarial cache makes lifetimes irrelevant.
- File watching, YAML and environment layering of the configuration: a reload event carries what parsing gave.
- User management, RBAC tables, temporary passwords, phone normalisation, config validators and region tables: easy members.
