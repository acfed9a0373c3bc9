# Verification of the API's stateful core

A Dafny 4.11 project that models the parts of the API whose guarantees show only over whole runs, and proves them.
`dafny verify dfyconfig.toml` checks everything.

## What is modelled

**Sessions and access tokens.** `SessionRows` is the `sessions` table with its rotation chains. `SessionInterleaving`
runs any number of refresh, logout and password transactions at once, step by step: a row lock is held from the step
that takes it to the commit, a row is re-read after a lock wait, and a multi-row UPDATE takes its rows one by one.
`AuthSessions` serves requests one at a time (login, refresh, logout, password change, reset, account activation and
deletion, the access-token guard) and proves what holds over every sequence of them, with passwords and reset tokens in
`AuthPasswords`. `AuthEffects` says of each request what it answers and what it changes, column by column, and `AuthLimits`
runs the requests together with the counters that limit them. `AuthService` is the same requests as methods of a class
that assign to its tables in the source's order, each proved equal to its request function.
`SessionRefinement` connects the two levels: every serialised request is a lone run of the lock-level machine.
`SessionDeaths` says what a committed revocation leaves alive when refreshes run beside it. `AccountInterleaving` puts
the sessions together with the `users` row that reuse detection and password writes lock and increment: `AccountVersions`
is about token versions in every interleaving, `AccountLocks`, `AccountWaits` and `AccountCycles` about who waits for
whom, and `AccountDeadlock` is the run in which two transactions wait for each other. `ResetInterleaving` adds the rows of
`password_reset_tokens` that a reset reads before and locks inside its transaction: `ResetWaits` is about waits and cycles
with these rows, `ResetDeadlock` is a run in which two resets wait for each other, `ResetCompletion` says when two that
have begun can both be carried out, and `ResetAcceptance` how often one reset token is accepted.

**Pending registrations.** `RateLimits` is the fixed-window counter with its refund. `Candidates` is the table in
`(createdAt, id)` order, `Registration` the insert, resend, verify, retention and closing requests over it,
`RegistrationRuns` and `RegistrationCeiling` what holds over every sequence of them, `RegistrationSpentDay` one run from
the empty table, and `RegistrationService` the imperative form. `RegistrationEffects` says when a code opens an account and
which, when a candidate is inserted, what becomes of every stored row, and what each request costs. `RateLimitBursts` is
what a fixed window allows in an interval of its length, `RateLimitRows` which rows the counters hold, and
`RateLimitInterleaving` the same counter when calls overlap. `CandidateLocks` is the finer model of the two locking
transactions and of the wait for a duplicate account row, and `CandidateWrites` what their commits leave behind in every
interleaving.

**Elevation profiles.** `TileWorkers` is the worker pool over one cursor and one deadline under every interleaving.
`ElevationProfile` is the sampling loop and the cache of complete profiles, `ProfileKeys` the quantisation and the text
of the cache key.

**Air quality.** `AirQualityCompile` turns untyped stored rows into a run on an hourly axis, `AirQualityReader` is the
cache's two sides with the exit guard and the run-age ceiling, `AirQualitySteps` the nearest-step scan,
`AirQualityEaqi` the index of one step, `AirQualityRead` the two public reads with their second normalisation pass, and
`AirQualityRequests` follows a stored row through the cache to the index that is published of it.
`AirQualityValues`, `Collecting`, `Division`, `Sizes` and `Options` are shared helpers.

**Earthquakes.** `EarthquakeIngest` is the upsert, its revision counter and one tour's counters, `EarthquakeLedger` the
run ledger with retention and the published freshness, `EarthquakeTours` whole tours and hand-run loads over both
tables, `EarthquakeTarget` the same as methods. `EarthquakeLedgerRows` is every column of the row a tour leaves on the
ledger. `EarthquakeReplay` says when replaying a window changes nothing,
`EarthquakeAnchor` when the freshness anchor is a tour that stored something.

**Leaderboard.** `Leaderboard` is the idempotent submit and the two-stage ranking, under every choice the database may
make between rows that tie, `LeaderboardLines` what is shown of each user under those choices, `LeaderboardRanks` the
ranks a user can have, `LeaderboardPages` what pages read one request at a time show, and `LeaderboardResponse` which rows
a response shows and which rounds count.

Digests are injective constructors, instants are integer milliseconds, fresh ids and clock readings are parameters, and
a database or upstream failure is a parameter that says it happened. A class method that changes state is proved equal
to a function of the old state; the theorems are about that function, over all sequences of calls.

## Where the code and its comments differ, and what else came up

- The leaderboard order is described as a fully deterministic total order, so that identical data always gives an
  identical table. It has no tie-break after `created_at`, neither between users nor between the rounds of one user.
  `LeaderboardLines.TableDeterminedIff` is the exact condition for the table: best rounds alike in the four ranking columns
  are alike in the other shown ones too. `Leaderboard.UserOrderDeterminedIffNoTies` is the one for the order of the users
  alone, and `LeaderboardLines.OneUserTwoLines` an input that meets the second and not the first.
  `LeaderboardRanks.RanksAreTheRange` has the ranks a user can be given, and
  `LeaderboardPages.EachOnceIffNoBlockStraddles` the exact condition under which pages list every user once: no tied block
  lies across a page break.
- Replaying an ingest window is described as a no-op. It is one exactly when every row the replay gets through was the
  last word on its id, `EarthquakeReplay.ReplayIsNoOp`; with nothing refused, exactly when the window does not report one
  id in two ways, `EarthquakeReplay.WholeReplayIsNoOp`, because the parser does not deduplicate. A two-row window that is
  rewritten is in `EarthquakeReplay.ReplayCanRewrite`.
- The read store describes the freshness anchor as the newest tour that succeeded and stored something. A clean `ok`
  stored something exactly when some row was neither refused nor already held, `EarthquakeIngest.CleanTourStoredSomethingIff`;
  it stored nothing when the provider had no rows, `EarthquakeIngest.EmptyAnswerIsClean`, or one the store already held,
  `EarthquakeIngest.HeldRowIsClean`. And a tour that succeeded and
  stored something is not the anchor when its ledger write failed, or when it is a load over a window long past. Over runs
  of tours and loads, `EarthquakeAnchor.AnchorIsPromisedIff` says exactly when the anchor is the promised one, and
  `EarthquakeAnchor.EmptyTourIsTheAnchor`, `EarthquakeAnchor.RepeatedRowIsTheAnchor`,
  `EarthquakeAnchor.UnrecordedTourIsNotTheAnchor` and `EarthquakeAnchor.LateLoadIsNotTheAnchor` are runs in which it is not,
  one for each way.
- The game-round submit limit is described as rolling in one place and is a fixed window. An interval of one window's
  length holds at most twice the limit, `RateLimits.BurstIsTwiceTheLimit`; whatever its beginning, some run reaches that,
  `RateLimitBursts.TwiceTheLimitIsReached`; and the limit itself holds over `[from, from + window)` in every run exactly
  when `from` begins a window, `RateLimitBursts.RollingOnlyWhenAligned`.
- The limiter's clock reading, DELETE and INSERT are separate statements. A call that read its clock in one window and
  counts itself after a call of the next has deleted the row begins it again at one, `RateLimitInterleaving.OneOverTheLimit`.
  What holds in every interleaving is the limit for each time the row was inserted, `RateLimitInterleaving.LimitAnInsertion`.
- Reuse detection is said to kill the whole family, and logout and password writes to revoke every live row. Their UPDATE
  revokes what its snapshot matched: a rotation committed between the snapshot and the row lock survives it.
  `SessionDeaths.DeadIffNothingNew` says exactly when nothing does, and `SessionDeaths.RotationOutlivesTheRevocation` and
  `SessionDeaths.RotationOutlivesReuseDetection` are runs in which something does. What is dead stays dead,
  `SessionDeaths.DeathIsPermanent`.
- Callers of `issueSession` are told to pass the current token version. A password change passes the version it read before
  its transaction plus one: `AccountVersions.CurrentIff` says when the minted token is admitted, and in
  `AccountVersions.TwoChangesMintOutdatedPairs` two changes read the same version and both mint refused tokens.
- `src/auth/entities/user.entity.ts:190-191` has the version raised in two places, reuse detection and password reset. A
  password change raises it too (`src/auth/password-change.service.ts:103`).
- No comment speaks of two ways in which transactions of one user can wait for each other. Reuse detection locks session
  rows before the `users` row and a password write the other way round, `AccountDeadlock.DeadlockIsReached`. Two resets that
  each present an open token of their own lock that one first and then want the other's, `ResetDeadlock.TwoResetsDeadlock`.
  Among refreshes, logouts, password changes and resets every cycle is of one of these kinds, `ResetWaits.CycleIsOneOfTwo`,
  and `ResetWaits.CycleIff` says exactly when there is one. Two resets of one user that have begun can both be carried out exactly when not both of their tokens are still open,
  `ResetCompletion.BothGetThroughIff`.
- A reset token is checked outside the transaction that consumes it, and the consuming UPDATE does not ask whether it is
  still open. So one token is accepted at most as often as it was read as valid, `ResetAcceptance.AcceptedAtMostRead`, and
  that can be any number of times, `ResetAcceptance.AcceptedAnyNumberOfTimes`; once consumed it is never read as valid
  again, `ResetAcceptance.ConsumedIsNeverReadAgain`.

## Model

| member | source | states |
|---|---|---|
| SessionInterleaving.EveryFamilyIsOneChain | src/auth/session.service.ts:146-272 | in every interleaving of issue, refresh, logout and password transactions each family is one linear rotation chain, has at most one live row, and a row has one successor exactly when it was rotated and otherwise none |
| SessionInterleaving.TokenWinsAtMostTwice | src/auth/session.service.ts:162-214 | in every interleaving one token is answered with a new pair at most twice |
| SessionInterleaving.TokenWinsAtMostTwiceFromStart | src/auth/session.service.ts:162-214 | the same from the empty table |
| SessionInterleaving.WinIsRotationOrRecovery | src/auth/session.service.ts:184-213 | every answer retires one live row and adds one rotated from it, and is either the rotation of the token's own row or its only recovery within 15 s |
| SessionInterleaving.RevocationIsFinal | src/auth/session.service.ts:203-206 | in every interleaving a revoked row stays revoked with the same time and reason, and identity columns never change |
| SessionInterleaving.PutKeeps | src/auth/session.service.ts:149-156 | a step that replaces one transaction keeps the global invariant when its own locks and staged writes are justified |
| SessionInterleaving.CommitIsOneRotation | src/auth/session.service.ts:246-264 | what one commit writes is at most one rotation of a live row plus revocations |
| SessionRows.AtMostOneLive | src/auth/session.service.ts:218-221 | on a chain two live rows of one family are the same row |
| SessionRows.SuccessorIffRotated | src/auth/session.service.ts:171-178 | a row has exactly one successor when its reason is Rotated and none otherwise, so the source's exactly-one test never finds two |
| SessionRows.RotationExtendsChain | src/auth/session.service.ts:246-264 | one rotation appends its new row to the chain of its family and leaves every other chain as it was |
| SessionDeaths.DeadIffNothingNew | src/auth/session.service.ts:218-221 | whatever runs between the snapshot of a revoking UPDATE and its commit, the rows of the family it leaves live are exactly those newer than the snapshot, so the family is left dead exactly when there are none |
| SessionDeaths.RevokesWhatItSaw | src/auth/session.service.ts:293-296 | of the rows live when the UPDATE commits, it revokes exactly those its snapshot matched |
| SessionDeaths.DeathIsPermanent | src/auth/session.service.ts:216-223 | in every interleaving a family without a live row never has one again |
| SessionDeaths.RotationOutlivesTheRevocation | src/auth/session.service.ts:288-297 | a run from the empty table in which a committed logout, or password write, leaves the family alive in the row a refresh committed meanwhile |
| SessionDeaths.RotationOutlivesReuseDetection | src/auth/session.service.ts:216-223 | the same for a committed reuse detection |
| AccountInterleaving.SessionsRunAlone | src/auth/session.service.ts:146-272 | what the sessions table goes through beside the users row it goes through in the machine without it, so its theorems hold here too |
| AccountVersions.NeverAhead | src/auth/session.service.ts:278 | in every interleaving no access token was minted with a version its user has not reached |
| AccountVersions.VersionCountsEnds | src/auth/session.service.ts:222 | a user's version counts the committed reuse detections and password writes, and nothing else |
| AccountVersions.CommittedEndingsCount | src/auth/session.service.ts:216-223 | every committed reuse detection and password write is one of those counted |
| AccountVersions.EarlierTokensAreRefused | src/auth/access-token.guard.ts:77-79 | once one has committed, every version read before it is refused for good, in tokens minted and in those a login or refresh still mints from that read |
| AccountVersions.EarlierChangesMintRefusedTokens | src/auth/password-change.service.ts:112 | and what a password change mints from such a read, which is one version more, is refused for good too, because its own commit is a second increment |
| AccountVersions.CurrentIff | src/auth/password-change.service.ts:102-112 | a token minted from a version read earlier plus `k` is admitted exactly when `k` increments were committed since that read |
| AccountVersions.TwoChangesMintOutdatedPairs | src/auth/password-change.service.ts:112 | a run in which two password changes read the same version and both mint a token that is refused |
| AccountLocks.LiveIsNewest | src/auth/session.service.ts:246-259 | the live row of a family is newer than every other row of it |
| AccountLocks.ApplyKeeps | src/auth/session.service.ts:151-222 | every step keeps the shape of what is held and wanted: inside one family at most one row is wanted and nothing newer is held, a password write has at most one row of each family |
| AccountWaits.CycleNeedsTheUsersRow | src/auth/password-change.service.ts:102-110 | in every interleaving a cycle of waits for session rows and the users row passes through a reuse detection that waits for its user's row, held by a password write that waits for a session row |
| AccountWaits.NoDeadlockWithoutPasswordWrites | src/auth/session.service.ts:146-272 | refreshes, reuse detections, logouts and logins alone never wait for each other in a circle |
| AccountWaits.NoRoundOfRows | src/auth/session.service.ts:151-178 | waits for session rows alone never close a circle, password writes included |
| AccountCycles.CycleIff | src/auth/session.service.ts:218-222 | such a cycle exists exactly when some reuse detection waits for a password write of its user that, by one or more waits for session rows, waits for it |
| AccountDeadlock.DeadlockIsReached | src/auth/session.service.ts:218-222 | a run from the empty tables after which a reuse detection and a password write wait for each other and neither has a step but to abort |
| ResetInterleaving.BaseRunsAlone | src/auth/password-reset.service.ts:93-119 | what the sessions and users go through beside the token rows they go through in the machine without them, so its theorems hold here too |
| ResetInterleaving.ApplyKeeps | src/auth/password-reset.service.ts:100-108 | every step keeps the shape of the resets: each has locked its own token, no token row is locked by two, a reset locks and wants only tokens of its user, and it comes to the users row with none left to lock |
| ResetWaits.CycleIsOneOfTwo | src/auth/password-reset.service.ts:100-109 | in every interleaving a cycle of waits either passes through a reuse detection and a password write of its user, or is a round of resets of one user, with different tokens of their own, each of which wants a token row the next has locked |
| ResetWaits.CycleIff | src/auth/password-reset.service.ts:100-109 | a cycle exists exactly when some resets want each other's token rows all the way round, or some reuse detection and password write hold each other up |
| ResetDeadlock.NeitherGetsThrough | src/auth/password-reset.service.ts:102-108 | once two resets of one user hold open tokens of their own and each wants the other's, neither comes to the users row in any continuation that rolls back neither |
| ResetDeadlock.TwoResetsDeadlock | src/auth/password-reset.service.ts:102-108 | a run from the empty tables that ends in two such resets, with no reuse detection, session row or users row involved |
| ResetCompletion.BothGetThroughIff | src/auth/password-reset.service.ts:100-119 | two resets of one user that have begun can both still be carried out, whatever else is open, exactly when not both of the tokens they presented are still open |
| ResetAcceptance.ConsumedIsNeverReadAgain | src/auth/password-reset.service.ts:127-132 | in every interleaving a consumed token stays consumed and no later request reads it as valid |
| ResetAcceptance.AcceptedAtMostRead | src/auth/password-reset.service.ts:93-102 | in every interleaving a token is accepted at most as often as it was read as valid |
| ResetAcceptance.AcceptedAnyNumberOfTimes | src/auth/password-reset.service.ts:93-102 | and for every number some run accepts one token that often |
| ResetAcceptance.SweptWasOpen | src/auth/password-reset.service.ts:104-108 | in every interleaving a token that a reset sweeps along with its own was open until that reset committed |
| SessionRefinement.RefreshIsAnInterleaving | src/auth/session.service.ts:146-285 | the serialised refresh, on every branch, is what the lock-level machine reaches when the transaction meets nobody |
| SessionRefinement.SignOutIsAnInterleaving | src/auth/session.service.ts:288-297 | the same for logout |
| SessionRefinement.PasswordWriteIsAnInterleaving | src/auth/password-change.service.ts:102-110 | the same for the revocation of every live row of a user |
| SessionRefinement.IssueIsAnInterleaving | src/auth/session.service.ts:333-347 | the same for opening a session |
| AuthSessions.RefreshGrantedIff | src/auth/session.service.ts:158-264 | a presented token is answered exactly when its row is last on its chain, live and unexpired, or last but one, within an unused grace and with the last row live, and the account is active |
| AuthSessions.RefreshIsOneRotation | src/auth/session.service.ts:162-264 | whatever a refresh answers, its writes are one rotation or revocations only |
| AuthSessions.ServeKeepsInv | src/auth/session.service.ts:146-297 | every request keeps the chains, the digests, the foreign keys and the freshness of ids |
| AuthSessions.GrantedIsCurrent | src/auth/session.service.ts:278-284 | whatever grants a pair grants it to an active user at that user's version after the request, with a live row for the refresh token |
| AuthSessions.GrantedPairWorks | src/auth/password-change.service.ts:112 | a granted pair works: the access token is admitted and the refresh token can be rotated, also for the pair a password change returns |
| AuthSessions.FamilyDeathIsPermanent | src/auth/session.service.ts:216-223 | once a family has no live row, no sequence of requests gives it one |
| AuthSessions.FamilyIsFixed | src/auth/session.service.ts:189-202 | a row keeps its family and identity for as long as it exists and its id is never reused |
| AuthSessions.DeadFamilyIsRefused | src/auth/session.service.ts:162-223 | every token ever issued in a dead family is refused after any further requests |
| AuthSessions.SignOutIsForever | src/auth/session.service.ts:288-297 | logging out with one token of a family refuses every token of that family for good |
| AuthSessions.ReuseIsForever | src/auth/session.service.ts:216-223 | reuse detection refuses every token of the family for good |
| AuthSessions.ReuseRevokesFamily | src/auth/session.service.ts:216-222 | reuse revokes exactly the live rows of the family and raises the owner's version by one |
| AuthSessions.VersionsNeverFall | src/auth/session.service.ts:222 | no request lowers a user's token version, and a new user has an id never used before |
| AuthSessions.OutdatedForGood | src/auth/access-token.guard.ts:74-79 | a token behind its user's version stays behind, and no token ever runs ahead of it |
| AuthSessions.EndingOutdates | src/auth/password-reset.service.ts:100-118 | reuse, password change, reset and deletion each leave every earlier token of that user behind |
| AuthSessions.EarlierTokensAreRefused | src/auth/access-token.guard.ts:60-83 | a token granted before a reuse, a password change, a reset or a deletion is refused by the guard after it, whatever happens in between and later |
| AuthSessions.CascadeTakesChains | src/auth/account-deletion.service.ts:66 | the cascade of an account deletion takes whole chains and leaves the others intact |
| AuthPasswords.OnlyTheNewPasswordLogsIn | src/auth/password-change.service.ts:99-110 | after a change or a reset the new password logs an active user in and no other password does |
| AuthPasswords.OthersKeepTheirPassword | src/auth/password-reset.service.ts:110-111 | a change or a reset leaves every other user's row as it was |
| AuthEffects.VersionRisesIff | src/auth/session.service.ts:216-232 | a user that stays has its version raised by one exactly by its own reuse detection, password change or reset, and by no other request or refusal, an expired refresh included |
| AuthEffects.StatusIsTheOperators | src/auth/entities/user.entity.ts:175-176 | no request of the service moves a status |
| AuthEffects.PasswordIsTheOwners | src/auth/password-change.service.ts:102-104 | after any request a user's password is the one asked for by its own change or reset, and otherwise what it was |
| AuthEffects.WhoIsDeleted | src/auth/account-deletion.service.ts:66 | a user is gone exactly after its own accepted deletion |
| AuthEffects.WhoIsAdded | src/auth/email-verification.service.ts:281-332 | a user is added exactly by an activation, active, at version zero and with the hash given |
| AuthEffects.LoginGrantedIff | src/auth/session.service.ts:80-131 | a login is granted exactly within the limit to a known active user with the right password, each refusal has its one cause, and a refusal changes nothing |
| AuthEffects.ChangeGrantedIff | src/auth/password-change.service.ts:69-113 | the same for a password change, which also needs a new password |
| AuthEffects.DeleteAcceptedIff | src/auth/account-deletion.service.ts:47-72 | the same for a deletion |
| AuthEffects.ResetAcceptedIff | src/auth/password-reset.service.ts:93-132 | a reset is accepted exactly for a stored, unconsumed, unexpired token, and otherwise changes nothing |
| AuthEffects.RefreshAnsweredIff | src/auth/session.service.ts:158-264 | a live row is answered until it expires, a rotated one within 15 s while its mark is unused and the row that replaced it lives, either for an active account only |
| AuthEffects.RefreshRetires | src/auth/session.service.ts:203-264 | whatever a refresh answers, the live row of the family presented is retired for the reason that applies, and no other row changes but for the mark of a recovery |
| AuthEffects.OthersRetire | src/auth/session.service.ts:288-297 | of the other requests a logout retires the live row of its family, a password write those of its user, a deletion takes its user's rows, and nothing else touches a stored row |
| AuthEffects.GrantedRow | src/auth/session.service.ts:333-347 | a row is inserted exactly when a pair is granted, under its refresh token, for 30 days, in a new family or, for a refresh, in the family presented |
| AuthEffects.ResetTokensMove | src/auth/password-reset.service.ts:100-108 | a reset token is consumed by a confirmed reset of its owner and by nothing else, and deleted with its owner only |
| AuthEffects.ResetTokenIsInserted | src/auth/password-reset.service.ts:45-56 | a reset token is inserted exactly for a known user within the limit, open for 30 minutes |
| AuthEffects.RequestedTokenWorks | src/auth/password-reset.service.ts:93-132 | a token just requested resets its owner's password for 30 minutes |
| AuthEffects.GoodForAQuarterOfAnHour | src/auth/access-token.service.ts:70-80 | a granted access token is admitted right after the grant for exactly 900 s, and never later whatever happens |
| AuthEffects.InactiveIsShutOut | src/auth/access-token.guard.ts:60-79 | a user set to anything but active gets in by no access token, refresh token or password until its status is set again |
| AuthLimits.LimitsHold | src/auth/auth.types.ts:56-63 | over any run at most ten logins of one address are granted in a quarter of an hour of the clock, at most five password changes and deletions of one subject together, and at most three reset tokens made for one address in an hour |
| AuthPasswords.SpentForGood | src/auth/password-reset.service.ts:127-132 | a consumed or deleted reset token stays so over any requests |
| AuthPasswords.ResetSpendsEveryToken | src/auth/password-reset.service.ts:100-108 | a confirmed reset spends the presented and every earlier token of its owner: each is refused and changes nothing after any further requests |
| AuthService.Service.IssueSession | src/auth/session.service.ts:333-356 | inserts one live row in a family of its own and mints the pair that names it |
| AuthService.Service.Login | src/auth/session.service.ts:80-131 | one unit of the login limiter, then the limiter, unknown-address, wrong-password, unverified and disabled refusals in order, else a session at the user's version |
| AuthService.Service.Recover | src/auth/session.service.ts:163-214 | recovers exactly when the recovery applies, with the mark, the insert and the successor's revocation in order |
| AuthService.Service.Refresh | src/auth/session.service.ts:146-285 | the whole new state and answer of a refresh on every branch |
| AuthService.Service.Logout | src/auth/session.service.ts:288-297 | revokes exactly the live rows of the token's family, or nothing for an unknown token |
| AuthService.Service.ChangePassword | src/auth/password-change.service.ts:69-113 | one unit of the change limiter, the refusals in order; else version, hash, revocations and a fresh pair at the raised version |
| AuthService.Service.RequestReset | src/auth/password-reset.service.ts:45-56 | one unit of the reset limiter, then one reset token for a known address within the limit, and nothing otherwise |
| AuthService.Service.ConfirmReset | src/auth/password-reset.service.ts:93-132 | consumes the presented and every other open token, raises the version, writes the hash and revokes every live row; refuses a consumed, expired or unknown token |
| AuthService.Service.DeleteAccount | src/auth/account-deletion.service.ts:47-72 | one unit of the change limiter, the refusals in order, else the row and its sessions and reset tokens |
| AuthService.Service.CanActivate | src/auth/access-token.guard.ts:52-84 | admits exactly an unexpired token of an active user at that user's current version |
| RateLimits.RateLimiter.Consume | src/auth/auth-rate-limit.service.ts:72-115 | deletes the subject's stale windows, counts the call and answers whether it is within the limit |
| RateLimits.RateLimiter.Refund | src/auth/auth-rate-limit.service.ts:136-148 | gives one unit back to the carried window, never below zero and never creating a row |
| RateLimits.RetryAfterIsLeast | src/auth/auth-rate-limit.service.ts:109-112 | a refused caller's wait is at least one second and the least whole number of seconds that reaches a later window |
| RateLimits.OutstandingWithinLimit | src/auth/auth-rate-limit.service.ts:85-114 | over any calls one after the other, grants not refunded never exceed the count nor the limit of their window |
| RateLimits.RefundUndoesOneGrant | src/auth/auth-rate-limit.service.ts:136-148 | a refund of an open grant lowers the net count by exactly one, so the zero floor never binds while the row exists |
| RateLimits.BurstIsTwiceTheLimit | src/game-rounds/game-round-submit-rate-limit.service.ts:72-112 | with calls one after the other, any interval of one window's length holds at most twice the limit of net grants, for every scope including game-round submits |
| RateLimitBursts.TwiceTheLimitIsReached | src/game-rounds/game-round-submit-rate-limit.service.ts:72-112 | for every scope, subject and beginning some run holds exactly twice the limit in the interval |
| RateLimitBursts.RollingOnlyWhenAligned | src/game-rounds/game-round-submit-rate-limit.service.ts:72-112 | every run holds at most the limit in a half-open interval of one window's length exactly when the interval begins with a window |
| RateLimitRows.ConsumeMeans | src/auth/auth-rate-limit.service.ts:72-115 | a call is allowed exactly while the count of its window is below the limit, waits for nothing exactly then, adds one to that count and changes no other current row |
| RateLimitRows.WindowsAre | src/auth/auth.types.ts:56-63 | two instants are counted together exactly when they lie in the same minute, quarter of an hour, hour or day of the clock, by scope |
| RateLimitRows.OneRowASubject | src/auth/auth-rate-limit.service.ts:61-64 | over any calls a subject has at most one row for each of its limits |
| RateLimitRows.SweepTakesEndedWindows | src/retention/retention-cleanup.target.ts:76-85 | in every reachable state a sweep takes exactly the rows whose window is over |
| RateLimitRows.GameRoundsAreLimited | src/game-rounds/game-round-submit-rate-limit.service.ts:72-112 | a player is granted at most 300 submissions in an hour of the clock and at most 600 in any hour |
| RateLimitInterleaving.LimitAnInsertion | src/auth/auth-rate-limit.service.ts:72-95 | when calls overlap, the net grants of a window are at most the limit for each time its row was inserted, so within the limit if that was once |
| RateLimitInterleaving.InsertedAfterRemovals | src/auth/auth-rate-limit.service.ts:79-90 | a row is inserted once for each time it was deleted, and once more if it is there |
| RateLimitInterleaving.OneOverTheLimit | src/auth/auth-rate-limit.service.ts:72-95 | for every scope and subject some run of overlapping calls grants one more than the limit in one window |
| CandidateLocks.NoDeadlock | src/auth/email-verification.service.ts:227-240 | in every reachable state of any number of verify and insert transactions no chain of waits returns to its start, the wait for a duplicate account row included |
| CandidateLocks.SomebodyCanMove | src/auth/email-verification.service.ts:452-461 | while any transaction is open some open transaction waits for nobody |
| CandidateWrites.CommitWrites | src/auth/email-verification.service.ts:281-359 | in every reachable state a commit touches rows of its own address only; a verify that owns the address deletes all it locked and gives it its first account, any other verify deletes and inserts nothing, an insert opens no account |
| CandidateWrites.OpenedOnceFromQuiet | src/auth/email-verification.service.ts:272-303 | in every interleaving an address is given an account at most once, however many right codes are presented at once |
| CandidateWrites.WholeGroupGoes | src/auth/email-verification.service.ts:310-332 | a verify that opens an account takes every candidate its address had when it began, whatever ran in between |
| CandidateWrites.EveryGroupHasAnOrder | src/auth/email-verification.service.ts:227-240 | creation time and id put every group in an order |
| Registration.ServeKeepsInv | src/auth/email-verification.service.ts:261-267 | every request keeps attempt counts in 0..5 (the clamp never binds), ids distinct, and the table in its locking order |
| RegistrationService.Service.InsertCandidate | src/auth/email-verification.service.ts:434-538 | ambiguity refusal before the sweep, then the sweep, the ceiling, the clone source and the insert, in that order |
| RegistrationService.Service.Register | src/auth/registration.service.ts:63-109 | one unit of the register limiter, then nothing for an address that owns an account, else one candidate |
| RegistrationService.Service.ResendVerification | src/auth/registration.service.ts:142-176 | cooldown and daily units in order, the resend, and on an ambiguous refusal the refund, unless that fails and is swallowed |
| RegistrationService.Service.ChargeGuess | src/auth/email-verification.service.ts:261-268 | the update loop charges every live candidate of the address once and nobody else |
| RegistrationService.Service.Verify | src/auth/email-verification.service.ts:220-359 | no live candidate, no match, address taken and success, with the whole new state of each |
| RegistrationService.FirstMatch | src/auth/email-verification.service.ts:250-255 | finds the first live match in `(createdAt, id)` order, or says there is none |
| RegistrationRuns.LiveRowsSurvive | src/auth/email-verification.service.ts:378-388 | a live candidate survives every request except the one that opens its address's account, unchanged but for its attempt count |
| RegistrationRuns.RowsAreNeverRewritten | src/auth/email-verification.service.ts:531-536 | a stored candidate is either an earlier one with at most a higher attempt count, or freshly inserted from the draft or from a clone of a live row |
| RegistrationRuns.AccountsCarryOneRegistration | src/auth/email-verification.service.ts:281-303 | every account carries exactly the credential and profile fields of one earlier register draft of its address, through any number of clones |
| RegistrationRuns.OneAccountPerAddress | src/auth/email-verification.service.ts:272-278 | over any requests no address ever owns two accounts |
| RegistrationRuns.AtMostEightLive | src/auth/email-verification.service.ts:503-505 | at any time at most eight unexpired candidates of one address exist |
| RegistrationRuns.AmbiguousStaysAmbiguous | src/auth/email-verification.service.ts:471-495 | an ambiguous group stays ambiguous, row for row, under any number of resends |
| RegistrationRuns.AmbiguousResendCostsNothing | src/auth/registration.service.ts:151-176 | a resend to an ambiguous address leaves the table as it is, and leaves the daily count as it is exactly when the cooldown refused it, or the day's limit was not yet spent and the refund went through |
| RegistrationRuns.SpentDayIsNotGivenBack | src/auth/registration.service.ts:148-151 | with the limit of the day spent, a resend the cooldown lets through raises the count by one whatever the refund would do, because the refusal comes before the group is looked at |
| RegistrationSpentDay.SpentDayIsReached | src/auth/registration.service.ts:142-176 | seven requests from the empty table reach an ambiguous address with its day spent, and the next resend takes the count from five to six |
| RegistrationRuns.MissesAreCounted | src/auth/email-verification.service.ts:257-269 | while a candidate is stored its attempt count has risen by exactly the number of guesses tested against it that matched nothing, five in all at most |
| RegistrationRuns.FiveMissesRetire | src/auth/email-verification.service.ts:242-247 | after five such guesses the candidate never matches again |
| RegistrationEffects.VerifyOpensIff | src/auth/email-verification.service.ts:242-332 | a guess opens an account exactly when it is right for an unexpired candidate of the address with fewer than five misses and nobody owns the address; the account is that of the first such candidate |
| RegistrationEffects.OthersOpenNone | src/auth/email-verification.service.ts:281-303 | no other request opens an account, and a closing takes those of its address only |
| RegistrationEffects.InsertedIff | src/auth/email-verification.service.ts:471-536 | what an insert answers: ambiguous, full, without a live candidate or issued, each exactly when; and the mail carries the code and the language of the row |
| RegistrationEffects.IssuesIff | src/auth/email-verification.service.ts:503-536 | a candidate is inserted exactly when the limiters and the address let the request through and the group has room; it carries the draft, or that of the newest live candidate, for ten minutes |
| RegistrationEffects.RowsAfter | src/auth/email-verification.service.ts:261-332 | what every request does to every stored candidate: swept, taken with its group, charged one miss, retired, or left as it is |
| RegistrationEffects.SentCodeWorks | src/auth/email-verification.service.ts:220-332 | a code that was sent opens an account within ten minutes and fewer than five misses, whatever requests come between that open none for the address |
| RegistrationEffects.ResendCosts | src/auth/registration.service.ts:142-176 | the counts after a resend for every outcome: a full group or one without a live candidate keeps its unit |
| RegistrationEffects.ResendReachesIff | src/auth/registration.service.ts:142-155 | a resend reaches the insert exactly within the cooldown and the day |
| RegistrationEffects.RegisterCosts | src/auth/registration.service.ts:63-109 | a registration costs one unit of its own, and reaches the insert exactly within three a day for an address nobody owns |
| RegistrationEffects.RetireSweepsEndedWindows | src/retention/retention-cleanup.target.ts:76-85 | retention takes exactly the counters whose window is over |
| RegistrationCeiling.CreatedAtMostSeven | src/auth/auth.constants.ts:46-67 | when a granted register or resend reaches the insert, at most seven candidates of its address were created in its day |
| RegistrationCeiling.CeilingNeedsAnOlderDay | src/auth/email-verification.service.ts:503-505 | so the ceiling refuses it only because some still-live candidate was created before that day began |
| TileWorkers.RunAlone | src/elevation/elevation-profile.service.ts:306-336 | the worker loop alone computes the sequential result up to the deadline |
| TileWorkers.StartsAreAPrefix | src/elevation/elevation-profile.service.ts:308-317 | in every interleaving the started tiles are a prefix of the missing ones, each started once, with at most min(concurrency, missing) in flight, and none passed over before the deadline |
| TileWorkers.RunsAreBounded | src/elevation/elevation-profile.service.ts:306-340 | every interleaving ends: its length is bounded by the tiles, the workers and the deadline |
| TileWorkers.NotStuck | src/elevation/elevation-profile.service.ts:339-340 | until every worker has returned some worker can take a step |
| TileWorkers.EveryInterleavingIsSequential | src/elevation/elevation-profile.service.ts:325-344 | the resolved map, the attempts and the no-data count of every finished interleaving equal a sequential worker's, over all the tiles unless the deadline passed |
| ProfileKeys.KeysAreTheEndpoints | src/elevation/elevation-profile.service.ts:54-61 | two cache keys are equal exactly when their quantised endpoints are |
| ProfileKeys.QuantiseIsNearest | src/elevation/elevation-profile.service.ts:41-44 | quantising picks the nearest thousandth, halves upward |
| ElevationProfile.SampleLine | src/elevation/elevation-profile.service.ts:223-273 | the count is that of the samples whose tile resolved, minimum and maximum are their true extremes, and the arrays are both empty or both full length |
| ElevationProfile.CompleteIffEveryTileResolved | src/elevation/elevation-profile.service.ts:255 | a profile is complete exactly when every tile its line needs was resolved |
| ElevationProfile.CompleteIffEveryFetchAnswered | src/elevation/elevation-profile.service.ts:285-344 | whatever the interleaving, complete exactly when every tile missing from the tile cache was started and answered with a grid |
| ElevationProfile.TilesAreAtMostSamples | src/config/env.schema.ts:1393-1403 | the distinct tiles of a line never exceed its samples |
| ElevationProfile.FullCountIsComplete | src/elevation/elevation-profile.service.ts:223-273 | a computed profile has the full count exactly when both arrays are full, every elevation is there and both extremes are true |
| ElevationProfile.ProfileService.GetProfile | src/elevation/elevation-profile.service.ts:128-182 | coinciding endpoints refused exactly; only profiles complete in every field are cached, under the key of their own endpoints; cacheable exactly when complete; a usable entry is returned as it stands, and otherwise the profile of this call's samples or the one another instance wrote meanwhile; refused for its tiles exactly when it needs more than the ceiling, which the boot check makes unreachable; the cache is written exactly for a complete profile that was computed and whose write went through |
| AirQualityCompile.GuardIsExact | src/air-quality/air-quality-compile.ts:256-328 | the row guard passes exactly the rows that hold the written shape |
| AirQualityCompile.CompileRun | src/air-quality/air-quality-compile.ts:357-455 | the compile's loops return the specified outcome for any rows |
| AirQualityCompile.CompileProvince | src/air-quality/air-quality-compile.ts:406-438 | one row's merged arrays, verdicts and substitution count |
| AirQualityCompile.CompiledPollutant | src/air-quality/air-quality-compile.ts:409-428 | analysis values come before the seam and forecast values after it, all normalised, and a pollutant is unsupported exactly when every product the row has says so |
| AirQualityCompile.CompileIsHourly | src/air-quality/air-quality-compile.ts:382-453 | an `ok` compile has an hourly axis with the run base time at the number of analysis steps, the horizon at its end, and the seam present exactly when there is an analysis product |
| AirQualityCompile.CompiledProvince | src/air-quality/air-quality-compile.ts:94-105 | every province is that of one readable row, with every array as long as the axis |
| AirQualityCompile.CompileAccountsForEveryRow | src/air-quality/air-quality-compile.ts:361-380 | skipped plus provinces is the number of rows, and the compile fails exactly when no row is readable |
| AirQualityCompile.UnreadableRowsOnlyCostThemselves | src/air-quality/air-quality-compile.ts:351-356 | leaving the unreadable rows out changes nothing but the skip list |
| AirQualityCompile.RowOrderDoesNotMatter | src/air-quality/air-quality-compile.ts:361-438 | any order of the rows gives the same axis and counts, and the same provinces and skips up to order |
| AirQualityReader.ExitGuardIsExact | src/air-quality/air-quality-series.reader.ts:193-222 | the exit guard passes exactly the payloads in which everything a reader dereferences is there |
| AirQualityReader.ProvinceGuardIsExact | src/air-quality/air-quality-series.reader.ts:108-162 | the same for one province |
| AirQualityReader.CompiledRunsPassTheExitGuard | src/air-quality/air-quality-series.reader.ts:193-222 | everything the compile writes passes the exit guard |
| AirQualityReader.OnlyPublishableValuesLeave | src/air-quality/air-quality-series.reader.ts:302-371 | whatever the cache holds, a value leaves exactly when it is well shaped and within the age ceiling, unchanged; otherwise nothing that described it leaves |
| AirQualityReader.WriterAndReaderAgree | src/air-quality/air-quality-series.reader.ts:404-533 | what a refresh wrote is published unchanged until the run is over age and never after, and its shape never stops it |
| AirQualityReader.RefreshFailsOnlyWithoutReadableRows | src/air-quality/air-quality-series.reader.ts:491-532 | a refresh within the ceiling fails exactly when no row is readable; the step it announces always exists |
| AirQualityReader.SeriesReader.SuppressStaleRun | src/air-quality/air-quality-series.reader.ts:302-345 | the gate's answer, and the counter raised exactly on an emitted shape refusal |
| AirQualityReader.SeriesReader.CompileFromStore | src/air-quality/air-quality-series.reader.ts:404-533 | the refresh's answer and every counter it raises |
| AirQualitySteps.SelectStepIndex | src/air-quality/air-quality-compile.ts:465-477 | the scan returns the selected step |
| AirQualitySteps.ScanFindsTheNearest | src/air-quality/air-quality-compile.ts:465-477 | the scan finds the earliest index of least distance, and nothing only on an empty axis |
| AirQualitySteps.ScanIsTheClosedForm | src/air-quality/air-quality-compile.ts:457-477 | on an hourly axis the scan is `floor((2d + H - 1) / 2H)` clamped to the axis |
| AirQualitySteps.SelectionNeverGoesBack | src/air-quality/air-quality-compile.ts:465-477 | the selected step never decreases as time passes |
| AirQualitySteps.WithinHalfAnHour | src/air-quality/air-quality-compile.ts:458-459 | the published instant is within 30 minutes of now exactly when now is within 30 minutes of the axis |
| AirQualityEaqi.SubIndexBand | src/air-quality/eaqi/eaqi.ts:56-71 | the band of a non-negative value: lower bound exclusive, upper inclusive |
| AirQualityEaqi.ComputeEaqi | src/air-quality/eaqi/eaqi.ts:81-130 | the three loops return the specified index, sub-indexes, categories and missing list |
| AirQualityEaqi.IndexMeans | src/air-quality/eaqi/eaqi.ts:73-80 | the index is the worst band present, with its category, absent exactly when all five are missing, and the dominant pollutant is the first with that band |
| AirQualityEaqi.SubIndexMeans | src/air-quality/eaqi/eaqi.ts:87-96 | a pollutant has the sub-index of its own value and category, and is listed as missing exactly when it has none |
| AirQualityEaqi.MissingMeans | src/air-quality/eaqi/eaqi.ts:85-91 | the missing pollutants are listed each once and in the order of the list |
| AirQualityRead.InputAt | src/air-quality/air-quality-compile.ts:480-501 | whatever the cache holds, the index is asked only about missing or non-negative values |
| AirQualityRead.EaqiInputAt | src/air-quality/air-quality-compile.ts:480-501 | the loop's values, and the tally raised by the bad supported values of the step |
| AirQualityRead.BuildIndex | src/air-quality/air-quality-compile.ts:522-577 | the published index of one step, with its pollutant rows, missing list and provenance, and what it adds to the tally |
| AirQualityRead.IndexAgreesWithItsRows | src/air-quality/air-quality-compile.ts:534-561 | a pollutant is listed as missing exactly when its row has no value, no sub-index and is not available; no row is worse than the band; freshness only with a band |
| AirQualityRead.TodaysIndexCarriesItsRow | src/air-quality/air-quality-compile.ts:565-576 | over a payload of today's compile the index names the run, the instant, the ingest time and the grid cell that were compiled |
| AirQualityRead.BuildSeries | src/air-quality/air-quality-compile.ts:621-652 | one index a step, every array normalised, and what the pass adds to the tally |
| AirQualityRead.GetProvince | src/air-quality/air-quality-read.service.ts:198-242 | the published index is the series' own at the selected step, and the tally is the number of bad supported (step, pollutant) values |
| AirQualityRead.ListProvinces | src/air-quality/air-quality-read.service.ts:107-155 | one entry a province of the table, absent when the run does not cover it, and one tally for the request that adds up the bad values shown |
| AirQualityRead.ResolveRun | src/air-quality/air-quality-read.service.ts:280-312 | a value that left the gate is safe to take apart, and the step is the nearest to now |
| AirQualityRead.HubShowsTheRun | src/air-quality/air-quality-read.service.ts:116-132 | after the gate, the hub shows an index for exactly the plate codes the run carries, each from a province whose arrays are as long as the axis |
| AirQualityRead.EveryBadCellOnce | src/air-quality/air-quality-read.service.ts:205-211 | the series pass counts every bad supported value exactly once |
| AirQualityRead.TodaysPayloadIsPublishedAsCompiled | src/air-quality/air-quality-compile.ts:164-170 | a payload of today's compile is published value for value as it was merged |
| AirQualityRead.TodaysPayloadAddsNothing | src/air-quality/air-quality-compile.ts:654-666 | and adds zero to the tally after the cache |
| AirQualityRequests.HubShowsTheStore | src/air-quality/air-quality-read.service.ts:107-155 | from the store to the hub: while the run is within its age a plate code has an index exactly when a readable row of it was stored, and the index carries such a row at the compiled instant nearest to now |
| AirQualityRequests.RefreshMeans | src/air-quality/air-quality-series.reader.ts:404-533 | a refresh writes the compiled run and announces its instant nearest to now; each failure kind has its exact cause |
| AirQualityRequests.GateMeans | src/air-quality/air-quality-series.reader.ts:302-345 | what the gate withholds under which kind, with the times of the entry kept |
| AirQualityRequests.WithinAgeIff | src/air-quality/air-quality-series.reader.ts:302-345 | a run is published up to its age ceiling, the ceiling included |
| AirQualityRequests.CompiledRunSays | src/air-quality/air-quality-compile.ts:382-455 | a compiled run has its stored identity, hourly steps, and one province for each readable row in their order |
| AirQualityRequests.SkippedAreTheUnreadable | src/air-quality/air-quality-compile.ts:361-380 | the skip list names exactly the unreadable rows, each with its reason |
| AirQualityRequests.RefusalsAreTrue | src/air-quality/air-quality-compile.ts:256-328 | a row is never refused for something that is not so |
| AirQualityRequests.NormalisedAreTheBadValues | src/air-quality/air-quality-compile.ts:406-438 | the count of normalised values is that of the values of readable rows that were there and could not be used, each once |
| AirQualityRequests.ResolvedIsTheCached | src/air-quality/air-quality-read.service.ts:280-312 | a request publishes from the cached axis instant for instant, with the payload's identity and the read's provenance, at the instant nearest to now |
| AirQualityRequests.ResolvedIsTheCompiled | src/air-quality/air-quality-read.service.ts:280-312 | from a cached compile: its own facts and the step the compile would select |
| AirQualityRequests.LastOfAPlateStands | src/air-quality/air-quality-read.service.ts:305 | of several provinces with one plate code the last is published |
| AirQualityRequests.RowMeans | src/air-quality/air-quality-compile.ts:534-561 | a pollutant's row is unsupported exactly when the province says so, without a value exactly when the cell cannot be used, and otherwise has the normalised cell and its band |
| AirQualityRequests.TalliedIff | src/air-quality/air-quality-compile.ts:480-501 | a value is tallied exactly where a row has no value though something was cached for a supported pollutant |
| AirQualityRequests.IndexSays | src/air-quality/air-quality-compile.ts:522-577 | the index carries the instant, run, data set and cache entry it was built from, and the category and dominant pollutant of its band |
| EarthquakeIngest.RevisionFold | src/earthquake/earthquake-ingest.store.ts:81-204 | over any upserts an event holds the last upsert's columns, its revision count is the number of its upserts that changed one of the six fields, and its update time is that of its last real change |
| EarthquakeIngest.TourConserves | src/earthquake/earthquake-ingest.target.ts:188-215 | inserted, updated, unchanged and write-failed add up to the accepted rows, and the store was reached exactly when some row was not refused |
| EarthquakeIngest.InsertedIsGrowth | src/earthquake/earthquake-ingest.target.ts:200-204 | the table grows by exactly the inserted count |
| EarthquakeIngest.RowPropertiesAreCounted | src/earthquake/earthquake-ingest.target.ts:195-198 | out-of-scope and unresolved rows are counted whether stored or refused |
| EarthquakeIngest.DiagnosisMeans | src/earthquake/earthquake-ingest.target.ts:308-341 | clean `ok` exactly when some row reached the store or nothing was fetched, `schema_error` exactly when there were rows and all were refused, `ok` with a reason exactly when rows came and none was accepted |
| EarthquakeIngest.TourIsItsWrites | src/earthquake/earthquake-ingest.target.ts:195-215 | a tour is the upserts of its rows that were not refused and nothing else |
| EarthquakeIngest.CleanTourStoredSomethingIff | src/earthquake/earthquake-ingest.target.ts:308-341 | a clean tour inserted or updated something exactly when some row was neither refused nor already held by the table it met |
| EarthquakeIngest.EmptyAnswerIsClean | src/earthquake/earthquake-ingest.target.ts:308-341 | a tour the provider answered with no rows is a clean `ok` that stored nothing |
| EarthquakeIngest.HeldRowIsClean | src/earthquake/earthquake-ingest.target.ts:308-341 | so is a tour with one accepted row the store already holds |
| EarthquakeReplay.ReplayIsNoOp | src/earthquake/earthquake-ingest.store.ts:117-122 | whatever is refused in either tour, the replay of a window writes nothing exactly when each row it gets through was the last word on its id, or was held before and the first tour got no word of that id through |
| EarthquakeReplay.WholeReplayIsNoOp | src/earthquake/earthquake-ingest.store.ts:117-122 | with nothing refused, exactly when the window does not report one id in two ways |
| EarthquakeReplay.ReplayCanRewrite | src/earthquake/earthquake-ingest.store.ts:117-122 | a window with one id in two ways is rewritten by its replay and its revision count rises |
| EarthquakeLedger.NewestIs | src/earthquake/earthquake-read.store.ts:139-152 | the anchor query returns the greatest clean finish time, and nothing exactly when no clean row is there |
| EarthquakeLedger.PruneIsInvisible | src/earthquake/earthquake-ingest.store.ts:264-274 | whichever of the equally new rows the subquery spares, the anchor query cannot tell a prune happened |
| EarthquakeLedger.AtMostOneOldRow | src/earthquake/earthquake-ingest.store.ts:255-276 | after a prune at most one row is older than the cutoff |
| EarthquakeLedger.PrunedHas | src/earthquake/earthquake-ingest.store.ts:264-274 | a prune keeps exactly the young rows and the spared one |
| EarthquakeLedger.PrunedLedgerAgrees | src/earthquake/earthquake-ingest.store.ts:206-276 | over any recordings and prunes the pruned ledger gives the anchor of the full history |
| EarthquakeLedger.YoungRowsStay | src/earthquake/earthquake-ingest.store.ts:266 | a row young enough at every prune is still there as recorded |
| EarthquakeLedger.FreshnessIsOfTheFullHistory | src/earthquake/earthquake-data-status.ts:67-85 | the published status is fresh exactly when some tour ever recorded was clean and finished within the budget, and unavailable exactly when none ever was and the store holds nothing |
| EarthquakeLedger.RunLedger.RecordRun | src/earthquake/earthquake-ingest.store.ts:206-227 | appends one row |
| EarthquakeLedger.RunLedger.PruneRuns | src/earthquake/earthquake-ingest.store.ts:255-276 | the rows left, the number deleted, and an unchanged anchor |
| EarthquakeTours.AnchorIsTheNewestLandedTour | src/earthquake/earthquake-ingest.target.ts:147-286 | over any tours and hand-run loads the anchor is the latest finish among those that reached the store or had nothing to store, and null only when none did |
| EarthquakeAnchor.WritesNothingIffHeld | src/earthquake/earthquake-ingest.store.ts:117-122 | a tour or load writes nothing exactly when the table it meets holds every row it gets through |
| EarthquakeAnchor.StoredSomethingIff | src/earthquake/earthquake-ingest.target.ts:195-250 | a tour or load succeeded and stored something exactly when it got through a row the table it met did not hold, and no failure stopped the load |
| EarthquakeAnchor.StoredIsLandedUnlessLost | src/earthquake/earthquake-ingest.target.ts:397-412 | and then its ledger row is clean exactly when it was recorded and, for a load, its window ended within the freshness budget |
| EarthquakeAnchor.AnchorIsPromisedIff | src/earthquake/earthquake-read.store.ts:121-152 | the anchor is the newest tour or load that succeeded and stored something exactly when none of those with a later finish lost its clean ledger row and, if there is an anchor, one of them finished at it |
| EarthquakeAnchor.EmptyTourIsTheAnchor | src/earthquake/earthquake-read.store.ts:121-152 | a run in which the anchor is a tour that fetched nothing |
| EarthquakeAnchor.RepeatedRowIsTheAnchor | src/earthquake/earthquake-read.store.ts:121-152 | a run in which the anchor is a tour whose one row was already held |
| EarthquakeAnchor.UnrecordedTourIsNotTheAnchor | src/earthquake/earthquake-ingest.target.ts:397-412 | a run in which a later tour succeeded and inserted its row, its ledger write failed, and the anchor stays with the earlier tour |
| EarthquakeAnchor.LateLoadIsNotTheAnchor | src/database/earthquake/earthquake.cli.ts:128-143 | a run in which a load succeeded and inserted its row over a window long past, and there is no anchor |
| EarthquakeTours.SomePruneFits | src/earthquake/earthquake-ingest.store.ts:255-276 | whatever the ledger holds, a tour that prunes has a row its subquery can spare, so retention never blocks a tour |
| EarthquakeTours.EventsAreTheFold | src/earthquake/earthquake-ingest.target.ts:195-215 | over any tours and loads the stored events are the fold of exactly the rows that were not refused |
| EarthquakeLedgerRows.LedgerRowMeans | src/earthquake/earthquake-ingest.target.ts:236-260 | the columns of the ledger row of a tour or load: fetched is what the provider sent, inserted the growth of the table, inserted and updated the rows that met a table without them, skipped every accepted row out of scope |
| EarthquakeLedgerRows.LedgerRowBlames | src/earthquake/earthquake-ingest.target.ts:120-180 | and its outcome and reason when the provider, the lookup or a load failed |
| EarthquakeLedgerRows.LedgerAfter | src/earthquake/earthquake-ingest.store.ts:206-276 | after a tour the ledger holds what it held and the tour's row, less what retention takes |
| EarthquakeLedgerRows.UpsertAnswers | src/earthquake/earthquake-ingest.store.ts:141-204 | an upsert says whether the row was new, the same or changed, with the revision count now stored, and touches no other event |
| EarthquakeTarget.IngestTarget.UpsertEvent | src/earthquake/earthquake-ingest.store.ts:141-204 | inserts, updates or leaves the row, and says which |
| EarthquakeTarget.IngestTarget.StoreRows | src/earthquake/earthquake-ingest.target.ts:188-215 | the row loop's new table and six counters |
| EarthquakeTarget.IngestTarget.RunTour | src/earthquake/earthquake-ingest.target.ts:109-286 | the two tables after one tour on every branch |
| EarthquakeTarget.IngestTarget.LoadChunks | src/database/earthquake/earthquake.cli.ts:441-508 | the window loop of a hand-run load, up to the window it stopped in: the table, the fetched total and the counters |
| EarthquakeTarget.IngestTarget.RunLoad | src/database/earthquake/earthquake.cli.ts:523-546 | the two tables after one load on every branch |
| Leaderboard.GameRounds.Submit | src/game-rounds/game-rounds.service.ts:86-132 | refuses a malformed summary, returns the first recorded row of its key, or records one |
| Leaderboard.FirstSubmissionStands | src/game-rounds/game-rounds.service.ts:75-85 | over any submissions a user's client round id names the first accepted round, word for word |
| Leaderboard.RowsAreUnique | src/game-rounds/game-rounds.service.ts:75-85 | and over any submissions no two rows have that key in common |
| Leaderboard.RepeatIsReplayed | src/game-rounds/game-rounds.service.ts:80-84 | a repeated submission changes nothing and answers as the first did |
| Leaderboard.TableOf | src/game-rounds/game-rounds.service.ts:188-206 | some table satisfies both stages for any rounds |
| Leaderboard.RankIsOneMoreThanTheBeaters | src/game-rounds/game-rounds.service.ts:197-205 | without ties a user's rank is one more than the number of users with a strictly better best round |
| Leaderboard.UserOrderDeterminedIffNoTies | src/game-rounds/game-rounds.service.ts:197-205 | the order of the users is determined exactly when no two users' best rounds agree in all four columns |
| LeaderboardLines.TableDeterminedIff | src/game-rounds/game-rounds.service.ts:176-206 | identical data gives an identical table, in every shown column, exactly when any two best rounds of their users that agree in the four ranking columns agree in the others |
| LeaderboardLines.OneUserTwoLines | src/game-rounds/game-rounds.service.ts:189-196 | one user, two rounds alike in the four columns and different in another: no tie between users, and the table is open |
| Leaderboard.AlikeRoundsAreNotOrdered | src/game-rounds/game-rounds.service.ts:202 | two users' rounds alike in all four columns may be listed in either order |
| Leaderboard.DistinctTimesHaveNoTies | src/game-rounds/game-rounds.service.ts:202 | distinct creation times are enough |
| Leaderboard.OneMoreRound | src/game-rounds/game-rounds.service.ts:188-206 | one more round never worsens its user's rank and moves every other user down at most one place |
| Leaderboard.PagesAreAPrefix | src/game-rounds/game-rounds.service.ts:226-244 | the pages of one table in turn are the table |
| Leaderboard.PagesListEveryUserOnce | src/game-rounds/game-rounds.service.ts:225-251 | without ties, pages read one request at a time list every user once and in order though every request ranks anew |
| LeaderboardPages.EachOnceIffNoBlockStraddles | src/game-rounds/game-rounds.service.ts:225-251 | pages read one request at a time, each from a ranking of its own, list every user once whatever the rankings exactly when no two users alike in all four columns stand on either side of a page break |
| LeaderboardPages.SameKeys | src/game-rounds/game-rounds.service.ts:188-206 | every table has the same four columns at every place, ties or not |
| Leaderboard.HasMoreIffALaterPage | src/game-rounds/game-rounds.service.ts:274 | `hasMore` exactly when some later page is not empty |
| Leaderboard.ResponseMeans | src/game-rounds/game-rounds.service.ts:225-280 | without ties, and whatever the three queries each saw, the total, every entry's rank and the caller's own rank are those of the specification |
| LeaderboardRanks.RanksAreTheRange | src/game-rounds/game-rounds.service.ts:197-205 | over all tables the database may return, a user's ranks are exactly those from one more than the users who beat it to the number of users that do not lose to it |
| LeaderboardRanks.ResponseIsInRange | src/game-rounds/game-rounds.service.ts:225-280 | with ties or without, and whatever the three queries each saw, the total is the number of users and every rank, the caller's included, is in its user's range |
| LeaderboardResponse.ResponseShowsThePage | src/game-rounds/game-rounds.service.ts:225-280 | a response shows every row of its page and no other, each at its place, and says there is more exactly when the next page shows something |
| LeaderboardResponse.CallerIsMarked | src/game-rounds/game-rounds.service.ts:249-265 | the caller is marked on its own row only, and its rank is its place in the ranked table |
| LeaderboardResponse.TableIsRanked | src/game-rounds/game-rounds.service.ts:189-204 | whoever stands higher is no worse in score, wrongs, first tries and time in turn, and stands there with a best round of its own |
| LeaderboardResponse.OtherRoundsDoNotCount | src/game-rounds/game-rounds.service.ts:184-194 | an abandoned round, or one of another mode, changes no table |
| LeaderboardResponse.FinishedRoundCounts | src/game-rounds/game-rounds.service.ts:189-196 | a finished round puts its user on the table with at least that round |
| LeaderboardResponse.SubmitAnswers | src/game-rounds/game-rounds.service.ts:86-132 | a submission is refused exactly for numbers that cannot be, and otherwise answered with the first row of its key |

## Left out

- HTTP, controllers, DTO validation, OpenAPI, logging, metrics transport and mail sending: no state to prove anything about.
- Argon2, SHA-256, HMAC and JWT signing are injective or uninterpreted; a signature check is the presence of a token.
- AuthService.Service.Refresh: one clock reading stands for the several the source takes inside `refresh`; the guard reads its clock once.
- A thrown database error is no request of its own. What was committed before it stays: the limiter's statements commit on their own, and a password change commits before `issueSession` inserts, so a failing insert leaves the new password and no session. An open transaction is rolled back, which is `Abort` in the interleavings. A failing refund is swallowed by the source and is the `refunds` flag of a resend.
- A failing Argon2 verification is a mismatch to the source too and is not told apart from one; a failing hash aborts the request.
- In `AuthSessions` the limiter's answer is a flag of the request; `AuthService.Service` takes it from the counter itself.
- RateLimits.RateLimiter.Consume: the source also throws when the upsert returns no usable row, which a map cannot do; its clock reading, DELETE and INSERT are one step here and three in `RateLimitInterleaving`.
- RateLimits.OutstandingWithinLimit: for calls that do not overlap; with a late insert after another call's DELETE it is false, `RateLimitInterleaving.OneOverTheLimit`, and `RateLimitInterleaving.LimitAnInsertion` is what holds.
- RateLimits.BurstIsTwiceTheLimit: for calls that do not overlap, for the same reason.
- RegistrationCeiling.CreatedAtMostSeven: one clock reading serves the limiter and `created_at`, which the database sets; a request limited before midnight and inserted after it is counted in the earlier day.
- RegistrationCeiling.CeilingNeedsAnOlderDay: the same single clock reading.
- AuthSessions.FamilyDeathIsPermanent: that a logout or a reuse detection leaves the family dead is for serialised requests; `SessionDeaths` has the exact condition beside concurrent refreshes.
- RegistrationRuns.AtMostEightLive: for serialised transactions only, because a locking SELECT does not see a row inserted concurrently, as the source says of itself; RegistrationCeiling and the removal of every sibling candidate on success are serialised for the same reason.
- RegistrationRuns.OneAccountPerAddress: for serialised transactions; the concurrent case rests on the unique index on the address, which `CandidateLocks` models as a lock.
- AccountWaits.CycleNeedsTheUsersRow: counts waits for session rows and the users row only; `ResetWaits.CycleIsOneOfTwo` has the token rows too.
- ResetWaits.CycleIsOneOfTwo: speaks of refreshes, logouts, password changes and resets. An account deletion locks the users row and cascades to session and token rows, the order of a password write, so with a reuse detection it can close a cycle of its own; it is not in the lock-level machines, and neither is the retention tour's DELETE on reset tokens.
- ResetWaits.CycleIff: the same transactions.
- AccountCycles.CycleIff: the same transactions, without token rows.
- The lock-level session machines have no account deletion and no change of account status; whether the account is active is what a step reads. The version a refresh mints with is read in the step that decides.
- AuthPasswords.ResetSpendsEveryToken: for serialised requests; two concurrent confirmations of one token can both pass the validity read, which is outside the transaction, and `ResetAcceptance` has what holds then.
- CandidateLocks.NoDeadlock: covers the two write paths; the retention tour's DELETE on candidates names no order, so the lock argument does not cover it.
- The retention tour's DELETE on reset tokens: it takes only expired ones, which nothing resolves.
- Lock timeouts and a database deadlock abort are not steps of their own: a transaction may abort at any step of `CandidateLocks` and `AccountInterleaving`, and what the client then sees is left out.
- The route that verifies a reset token without consuming it, the profile, favourites, countries and books services: thin reads and writes.
- TileWorkers.EveryInterleavingIsSequential: what a tile fetch answers is fixed per tile, and a fetch cut short by the deadline is one that failed; the tile cache's own writes and evictions are not modelled.
- Great-circle sampling, bilinear sampling and tile arithmetic are parameters of `ElevationProfile`; coordinates are exact reals where the source has doubles.
- The shared cache's single flight, negative entries and lifetimes: a read hands back any value at all, which is what the exit guard is proved against.
- Texts of refusal and log reasons: a reason is a value that says which check failed. The 500-character cut of a stored error reason is dropped, since only its absence is ever read.
- The provider's parsing, scope geometry and windows are inputs of a tour or load; a tour that is disabled or out of budget writes nothing and is not a step.
- The cache-age header of the air-quality routes, and the year their attribution names.
- `ON DELETE SET NULL` on an event's province is not a step of the revision fold.
- The two-query history list of a user's own rounds has no tie-break either and is not modelled; the leaderboard's pagination is.
- The `users` join of the leaderboard and the surname initial: no effect on rank, order or count.
- Province identity, slugs, attribution and coordinates around an air-quality payload.
