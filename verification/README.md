# smusic backend: a verified model

A Dafny model of the parts of the smusic backend whose correctness depends on state, time, concurrency or
arithmetic, with proofs of what the design promises about them. `dafny verify dfyconfig.toml` checks everything.

| files | what they model |
|---|---|
| `Redis.dfy`, `RateLimiter.dfy`, `LimiterRun.dfy`, `LimiterReach.dfy` | counters with expiry, the fixed-window limiter as one call, its INCR and EXPIRE interleaved by any number of callers, and what runs of it can reach |
| `Runs.dfy` | paths of any state machine |
| `GeoStore.dfy`, `GeoStoreRun.dfy` | the geo index over a GEO set without expiry and detail keys with one: sequentially against one map with expiry, and command by command under concurrency and failures |
| `Presence.dfy`, `Database.dfy`, `Mfa.dfy`, `Settings.dfy`, `Nearby.dfy` | settings, consent, buckets and limiter keys; the tables; the TOTP and settings services; the query pipeline |
| `NearbyFaults.dfy`, `NearbyTheorems.dfy`, `NearbyCounters.dfy`, `NearbyFrames.dfy`, `NearbyFailures.dfy`, `NearbyPrivacy.dfy`, `NearbyReveal.dfy` | what failures do to one query; what it discloses, charges and records; which frames ask one; when it fails; what it does not reveal; whom it names and whose track it shows |
| `PresenceRun.dfy`, `PresenceTheorems.dfy`, `PresenceGates.dfy`, `PresenceWitness.dfy`, `PresenceSolo.dfy` | whole runs: queries, settings and TOTP operations interleaved one read, one limiter command or one write at a time, over an index that may answer anything; what holds in all of them, runs that show where a promise ends, and the run of an undisturbed query |
| `Conn.dfy`, `Hub.dfy`, `Delivery.dfy`, `Unregister.dfy` | one connection's send side and the ingest/fan-out pipeline as protocols over channels and flags; the pipeline together with the presence service; the end of a connection in registry and index |
| `Tokens.dfy`, `TokensRun.dfy`, `TokensFlows.dfy` | the refresh-token table, its flows, runs of them, and what each flow answers row by row |
| `Binary64.dfy`, `Playlist.dfy`, `PlaylistRun.dfy` | fractional playlist positions, in exact arithmetic and in binary64 |
| `Keyset.dfy` | keyset pagination |
| `PasswordHash.dfy`, `PasswordHashText.dfy` | the encoded password hash: printing, decoding and verifying; which texts are read, and as what |

Services that mutate state are classes whose methods follow the program's branches and are proved against
specification functions; what is promised is then proved about those functions, or about runs of a state machine.
Times are integers in milliseconds (ticks for tokens and playlists). Every call to a database, Redis, random source or
resolver takes a fault parameter that says whether it fails.

## Findings

Where the code and its comments disagree the model follows the code.

- A lost EXPIRE is not always self-healing, though `backend/internal/platform/cache/ratelimiter.go:35-39` says so: once the
  counter without expiry is used up, the key refuses everybody for ever. That is reachable, and it is the only way a key
  with a positive limit ends (`LimiterReach.AdmitsAgainUnlessJammed`, `JamIsReachable`).
- The limiter lets through at most 2·limit − 1 calls in any interval of one window, not "about 2·limit", and that many
  can happen (`LimiterReach.WindowBoundIsAttained`).
- Budgets of one pair are admitted at least 30 s apart, but a disclosure can be held up between its admission and the
  log, and `OccurredAt` is read before the limiter is asked. Disclosures of pairs of which the earlier was held up for at
  most x and the later for at least y are all 30 s apart exactly if x ≤ y, and recorded times likewise with the lag behind
  the clock reading, at least y for the earlier and at most x for the later (`PresenceWitness`); a run discloses one pair
  twice at one instant, with equal entries.
- `Verify` activates whatever secret the user has when it writes (`backend/internal/auth/mfa/totp.go:98-127`, and
  `MarkVerified` by user id, `backend/internal/auth/mfa/postgres/repo.go:53-63`), against its comment that a never-completed
  enrolment cannot count as active. The activated secret is the one a code was accepted for exactly if nothing was
  enrolled between the read and the write (`PresenceTheorems.MarkIsForTheAcceptedSecret`); otherwise a disclosure can rest
  on a factor nobody confirmed (`PresenceWitness.UnconfirmedFactorIsReliedOn`). Likewise a grant can be written after the
  factor it checked was replaced (`PresenceWitness.GrantOutlivesItsFactor`).
- A late Unregister of a replaced connection takes the user, who is still connected, out of the index until the next
  update frame (`Unregister.LateUnregisterHidesConnected`).
- The age of a consent is judged at the query's clock reading, not when the target's row is read: a consent 180 days old
  can be relied on, and disclosures whose row is read within a time t of the reading all rest on a younger one exactly if
  t is zero (`PresenceWitness.ActiveAtReadExactlyIfReadAtOnce`).
- The daily budget depends on whether the padded search is empty, so it can tell apart two situations that are in the
  same buckets (`NearbyReveal.PaddingRingShowsInDailyBudget`); answers, audit entries and pair budgets cannot.
- Reveal levels 0 and 1 act alike: a mutual follow always sees name and avatar
  (`backend/internal/presence/nearby_service.go:326-331` and 364, against `backend/internal/presence/domain.go:32-36`;
  `NearbyReveal.LevelsAlike`, `MutualAtLevelZeroIsNamed`).
- A rotation that stores the new token but fails to link the old one leaves two live tokens behind for one session. A
  user's live tokens stay within the sessions exactly if at least as many were logged out one by one as rotations stopped
  halfway (`TokensRun.LiveTokensAreBounded`).
- Every frame accepted before the drain loop ended is written, unless a write fails or the timer fires; one accepted
  later, by a Send that passed the flag check before close(), is lost (`Conn.FlushedBeforeClose`,
  `LateSendIsAcceptedAndLost`).
- Starting from one track, the 1086th put in front of it takes a position that is already taken.
- `decode` ignores text after the version and after the last parameter, and before the first separator.

## Model

| member | source | states |
|---|---|---|
| RateLimiter.RedisRateLimiter.Allow | backend/internal/platform/cache/ratelimiter.go:29-58 | one call: INCR, EXPIRE if the counter is 1, verdict and retry time, with a failure at any command |
| RateLimiter.AllowedExactlyBelowLimit | backend/internal/platform/cache/ratelimiter.go:29-58 | a call is let through if and only if fewer than `limit` hits are counted in the live window and no needed command fails; it counts one hit on its own key and none on others |
| RateLimiter.FirstHitOpensWindow | backend/internal/platform/cache/ratelimiter.go:29-43 | a first hit is counted for exactly one window, and for ever if its EXPIRE failed |
| RateLimiter.RetryAfterIsExact | backend/internal/platform/cache/ratelimiter.go:45-58 | a refused caller is told, to the instant, how long the counted hits last, or one window if that cannot be read or the key has no expiry; whoever is let through is told 0 |
| LimiterRun.SoloCallIsAllow | backend/internal/platform/cache/ratelimiter.go:29-58 | an undisturbed call of the interleaved machine leaves the counter and gives the verdict that the one-call specification says |
| LimiterRun.ReachableInv | backend/internal/platform/cache/ratelimiter.go:29-58 | the invariant holds in every state of every run |
| LimiterRun.GenerationAdmitsAtMostLimit | backend/internal/platform/cache/ratelimiter.go:29-58 | in every run each life of a key admits at most `limit` calls |
| LimiterRun.GenerationsAreAWindowApart | backend/internal/platform/cache/ratelimiter.go:29-58 | the lives of a key begin at least a window apart, and a window after the EXPIRE of the life before |
| LimiterRun.WindowHoldsLessThanTwiceLimit | backend/internal/platform/cache/ratelimiter.go:10-28 | any half-open interval of one window holds at most 2·limit − 1 admissions |
| LimiterRun.LimitOneSpacesAdmissions | backend/internal/platform/cache/ratelimiter.go:29-58 | with limit 1 each admission is asked for a full window after the previous one was answered |
| LimiterRun.JammedForever | backend/internal/platform/cache/ratelimiter.go:35-39 | a used-up counter that lost its EXPIRE admits nobody in the rest of any run |
| LimiterReach.AdmitsAgainUnlessJammed | backend/internal/platform/cache/ratelimiter.go:35-43 | in every reachable state a key with a positive limit can admit another call, in some continuation, if and only if it is not jammed: a counter used up, without expiry, and nobody still waiting to EXPIRE it |
| LimiterReach.JamIsReachable | backend/internal/platform/cache/ratelimiter.go:35-43 | from the start, a first caller that dies before EXPIRE and as many further hits as the limit has left use a key up for ever |
| LimiterReach.WindowBoundIsAttained | backend/internal/platform/cache/ratelimiter.go:10-28 | for every positive limit and every window of more than one tick a run admits 2·limit − 1 calls within one window |
| GeoStore.Store.Upsert | backend/internal/presence/redisstore/geoindex.go:67-96 | GEOADD then SET with TTL, and the state each failure leaves |
| GeoStore.Store.Touch | backend/internal/presence/redisstore/geoindex.go:99-137 | GET, GEOPOS, EXPIRE: answers the stored position and renews the detail key only if both structures have the user |
| GeoStore.Store.Remove | backend/internal/presence/redisstore/geoindex.go:140-151 | ZREM then DEL, and the state each failure leaves |
| GeoStore.Store.Search | backend/internal/presence/redisstore/geoindex.go:169-213 | the hits in the order answered, without the excluded user, each with its stored position |
| GeoStore.Store.Detail | backend/internal/presence/redisstore/geoindex.go:216-259 | exactly the given users whose detail key is live, with their details |
| GeoStore.StoreRefinesTtlMap | backend/internal/presence/redisstore/geoindex.go:67-151 | after any run of Upsert, Touch, Remove and time the two structures are that map |
| GeoStore.CandidatesKeepOrder | backend/internal/presence/redisstore/geoindex.go:169-213 | the hits of a search stand in the order of the answered names, each made from one of them |
| GeoStore.TouchAnswersFromMap | backend/internal/presence/redisstore/geoindex.go:99-137 | Touch is ok exactly for live users, with the position of their latest Upsert |
| GeoStore.SearchThenDetailReadsMap | backend/internal/presence/redisstore/geoindex.go:169-259 | Search followed by Detail finds exactly the mapped users in range, with mapped position and detail; members whose detail expired get none |
| GeoStoreRun.SoloCallIsCall | backend/internal/presence/redisstore/geoindex.go:67-151 | an Upsert, Touch or Remove that runs undisturbed in the machine changes the index exactly as its one-call form, whichever command fails or loses its reply, and leaves other calls alone |
| GeoStoreRun.OnlyUpsertMakesDiscoverable | backend/internal/presence/redisstore/geoindex.go:67-151 | of all single commands only an Upsert's own GEOADD or SET makes a user discoverable, Touch never does |
| GeoStoreRun.DiscoveryNeedsAnUpsert | backend/internal/presence/redisstore/geoindex.go:67-151 | between a state where a user is not discoverable and one where it is, a command of an Upsert of that user was executed |
| GeoStoreRun.RemovedStaysRemoved | backend/internal/presence/redisstore/geoindex.go:140-151 | after a completed Remove with no Upsert of the user pending, the user stays undiscoverable until a new Upsert begins, under any interleaving and failures |
| GeoStoreRun.DeadlineComesFromARenewal | backend/internal/presence/redisstore/geoindex.go:67-137 | every expiry in force was set by a SET or EXPIRE executed earlier, its TTL later |
| GeoStoreRun.DiscoverableOnlyWithinTtl | backend/internal/presence/redisstore/geoindex.go:67-137 | a user is discoverable only within the TTL of such a SET or EXPIRE |
| Presence.PairKeyInjective | backend/internal/presence/ratelimit.go:37-39 | two pairs share a limiter key only if they are the same ordered pair, for requester ids without a colon |
| Presence.ColonsMergePairs | backend/internal/presence/ratelimit.go:37-39 | with a colon in an id two different pairs share one key |
| Presence.UpdateFrameKeysAreApart | backend/internal/presence/ratelimit.go:37-49 | the budget key for a user's update frames is no pair key, no daily key, and no other user's |
| Mfa.TotpChallenger.Enroll | backend/internal/auth/mfa/totp.go:43-91 | enrolling stores a fresh pending secret over whatever was there, so the factor is no longer verified |
| Mfa.TotpChallenger.Verify | backend/internal/auth/mfa/totp.go:98-127 | a valid code for the stored secret activates the secret stored by then: the one the code was for exactly if no other was enrolled between the read and the write; nothing else changes, errors distinguished |
| Mfa.TotpChallenger.HasVerified | backend/internal/auth/mfa/totp.go:134-143 | true exactly for users with an activated factor, false without one |
| Settings.SettingsService.Get | backend/internal/presence/settings_service.go:43-55 | the stored row, or the invisible, paused, not consented default |
| Settings.SettingsService.Update | backend/internal/presence/settings_service.go:73-118 | writes exactly the touched fields, field by field, keeps every row legal, takes the user out of the index when the row ends up paused or invisible; errors told apart |
| Settings.SettingsService.SetPaused | backend/internal/presence/settings_service.go:186-188 | changes the pause flag only, and takes a hidden user out of the index |
| Settings.SettingsService.GrantConsent | backend/internal/presence/settings_service.go:129-154 | succeeds only behind an activated factor; consent is due 180 days after now and nothing else changes; errors told apart |
| Settings.SettingsService.RevokeConsent | backend/internal/presence/settings_service.go:163-180 | clears consent, pauses, changes nothing else, and takes the user out of the index; errors told apart |
| Settings.SettingsService.Block | backend/internal/presence/settings_service.go:206-217 | a block is stored once and works in both directions; nobody blocks themselves |
| Settings.SettingsService.Unblock | backend/internal/presence/settings_service.go:220-228 | lifts only the caller's own block; one by the other side stays |
| Settings.RejectsIllegal | backend/internal/presence/settings_service.go:79-108 | an update is rejected exactly for an illegal visibility, radius or reveal level, and the first of them decides the error |
| Nearby.NearbyService.CheckConsentOf | backend/internal/presence/nearby_service.go:98-118 | consent required if never given or revoked, expired from its due date on |
| Nearby.NearbyService.Filter | backend/internal/presence/nearby_service.go:250-311 | one turn of the filter loop: block, target row, consent, follows, radius, pair budget, in this order |
| Nearby.NearbyService.Collect | backend/internal/presence/nearby_service.go:249-311 | the filter loop: survivors and budgets are those of the specification, and the first failure ends it |
| Nearby.NearbyService.Disclose | backend/internal/presence/nearby_service.go:340-383 | the reporting loop: results and audit entries of the live survivors in order, stopping at an audit failure |
| Nearby.NearbyService.QueryFrom | backend/internal/presence/nearby_service.go:227-384 | the whole pipeline: answer, budgets and audit log are those of the specification `Query` |
| Nearby.NearbyService.ApplyUpdate | backend/internal/presence/nearby_service.go:127-159 | consent first, then jitter, then Upsert (or Remove of a hidden user), then the query from the jittered position |
| Nearby.NearbyService.ApplyHeartbeat | backend/internal/presence/nearby_service.go:169-187 | consent first, then Touch; without a stored position an empty answer; else the query from it |
| Nearby.NearbyService.SetVisibility | backend/internal/presence/nearby_service.go:198-203 | only "invisible" acts, and removes the user at once |
| Nearby.FailureEndsScan | backend/internal/presence/nearby_service.go:250-311 | after a failing dependency no further candidate is looked at or charged |
| Nearby.FailureEndsReport | backend/internal/presence/nearby_service.go:340-383 | after a failing audit write nothing more is recorded or reported |
| NearbyFaults.ConsiderAsksIfPasses | backend/internal/presence/nearby_service.go:250-311 | a turn of the filter loop asks for the pair's budget if and only if the filters pass as the interleaved machine states them, and otherwise changes nothing |
| NearbyFaults.AnswerAsWithoutFaults | backend/internal/presence/nearby_service.go:227-384 | a query that has an answer, whatever fails along the way, has the answer, budgets and entries of the query in which nothing fails |
| NearbyTheorems.SearchFindsEligible | backend/internal/presence/nearby_service.go:69-78 | every user of the whole index that may be counted as seen is among the hits of the padded search, which holds exactly the members in range |
| NearbyTheorems.IndexAgreesWithFullScan | backend/internal/presence/nearby_service.go:227-384 | with the daily budget open a query that has an answer, whatever fails along the way, returns exactly the users of the whole index that satisfy the declarative visibility predicate and whose pair budget was free, each once, with bucket, profile and track as the tables say; and with nothing failing it has one |
| NearbyTheorems.BudgetsCharged | backend/internal/presence/nearby_service.go:227-311 | an answered query, whatever fails along the way, charges the daily budget exactly if the search was not empty, and, with the daily budget open, one pair budget per eligible member of the index, live or stale; with it used up none |
| NearbyCounters.QueryCharges | backend/internal/presence/nearby_service.go:227-311 | the counters after an answered query, key by key: one more hit on the daily key if somebody else is within the padded radius, on each eligible user's pair key if fewer than 200 were used, and on no other; a hit that opens a window opens it for a day or for 30 s, any other keeps the deadline |
| NearbyTheorems.StaleMemberChargedNotShown | backend/internal/presence/nearby_service.go:300-345 | in an answered query, whatever fails along the way, an eligible GEO member whose detail expired is not returned, and with the daily budget open it costs its pair budget |
| NearbyTheorems.AuditMatchesDisclosure | backend/internal/presence/nearby_service.go:340-383 | on success the appended entries equal the results one for one, in target, bucket and order, and no result carries the empty bucket, whatever fails along the way |
| NearbyTheorems.NoConsentNoEffect | backend/internal/presence/nearby_service.go:110-133 | without an active consent a frame is refused with the matching error and writes, charges and records nothing |
| NearbyTheorems.UpdateMovesOnlyTheAsker | backend/internal/presence/nearby_service.go:127-159 | a working update leaves the user live at the jittered position, or absent if hidden; nobody else's entry changes, whatever fails |
| NearbyTheorems.HeartbeatMovesNobody | backend/internal/presence/nearby_service.go:169-187 | a heartbeat changes no position and no detail, at most the asker's own expiry |
| NearbyFrames.HeartbeatAnswers | backend/internal/presence/nearby_service.go:169-187 | the heartbeat of a consenting, live user lists exactly who is visible from the stored position over the renewed index and had a free pair budget, if the daily budget was open; its entries record the answer and its hits are charged; with nothing failing it has an answer |
| NearbyFrames.OtherHeartbeats | backend/internal/presence/nearby_service.go:169-187 | any other heartbeat of a consenting user changes nothing: an error if settings or index cannot be read, nobody if the user is not live |
| NearbyFrames.UpdateAnswers | backend/internal/presence/nearby_service.go:127-159 | the update of a consenting user leaves the index written, or without a hidden user, and answers in the same way from the jittered position over that index |
| NearbyFrames.OtherUpdates | backend/internal/presence/nearby_service.go:127-159 | any other update of a consenting user is an error that charges and records nothing; only a half-done write leaves its position |
| NearbyFailures.QueryFailsExactly | backend/internal/presence/nearby_service.go:227-384 | a query fails if and only if the search does, or the daily limiter of a nonempty one, or, with that budget open, a question about somebody in reach that the filters come to ask, or the hydration, profiles or audit entry of somebody who passed |
| NearbyPrivacy.OutOfRangeDoesNothing | backend/internal/presence/nearby_service.go:227-311 | filtering the padded search's hits equals filtering the whole index, in order, survivors and budgets |
| NearbyPrivacy.OnlyBucketsMatter | backend/internal/presence/nearby_service.go:227-384 | two indexes whose distances lie in the same buckets give the same answer, audit entries and pair budgets if both queries have an answer, whatever fails along the way; the whole counters agree if and only if both or neither padded search is empty |
| NearbyPrivacy.HiddenProfileChangesNothing | backend/internal/presence/nearby_service.go:322-369 | changing the profile of someone neither mutual nor in open discovery changes nothing in a query, whatever fails |
| NearbyPrivacy.BucketsAreTrueWithinJitter | backend/internal/presence/bucket.go:159-172 | whatever fails along the way, a reported bucket [lo, hi) means a true distance in [lo − 150, hi + 150), and nobody truly farther than the smaller radius plus 150 m is shown |
| NearbyPrivacy.NearUsersAreNotDropped | backend/internal/presence/nearby_service.go:291-298 | somebody truly closer than the smaller radius minus 150 m is not dropped by the radius or bucket gates |
| NearbyReveal.ResultsAreNamedRight | backend/internal/presence/nearby_service.go:322-369 | in every answer, whatever fails along the way, a result carries the target's name and avatar if and only if the target is a mutual follow or in open discovery, and has a profile; otherwise both are empty |
| NearbyReveal.ResultsShareTracksRight | backend/internal/presence/nearby_service.go:340-383 | in every answer, whatever fails along the way, a result is of a live user and carries the stored track if that user shares it, and none otherwise |
| NearbyReveal.UnsharedTrackChangesNothing | backend/internal/presence/nearby_service.go:369-372 | changing the track of somebody who does not share it changes nothing in any query |
| NearbyReveal.LevelsAlike | backend/internal/presence/nearby_service.go:326-331 | switching a target among reveal levels other than open discovery changes nothing in any query, whatever fails |
| NearbyReveal.MutualAtLevelZeroIsNamed | backend/internal/presence/nearby_service.go:364-369 | a concrete query answers a mutual follow at level 0 with name and avatar |
| NearbyReveal.PaddingRingShowsInDailyBudget | backend/internal/presence/nearby_service.go:227-249 | two concrete indexes in the same buckets, one search empty and the other not, that the daily budget tells apart |
| PresenceRun.ReachableInv | backend/internal/presence/nearby_service.go:127-384 | the invariant holds in every state of every run |
| PresenceSolo.SoloQueryIsQuery | backend/internal/presence/nearby_service.go:227-384 | a query of the machine that nobody disturbs, with nothing failing and every lookup answering what is stored, ends with the answer of the pipeline, the budgets of the pipeline and its audit entries |
| PresenceSolo.SoloQueryInAnyRun | backend/internal/presence/nearby_service.go:227-384 | the same from any state of any run, whatever happened before |
| PresenceTheorems.AdmissionsOfAPairAreSpaced | backend/internal/presence/nearby_service.go:300-306 | in every run any two audit entries of one ordered pair rest on two different limiter admissions at least 30 s apart |
| PresenceTheorems.DisclosuresAreSpacedUpToHoldUp | backend/internal/presence/nearby_service.go:300-379 | the entries are appended 30 s apart, less how long the earlier one was held up after its admission, plus how long the later one was; none is appended before its admission |
| PresenceTheorems.RecordedTimesAreSpacedUpToLag | backend/internal/presence/nearby_service.go:300-379 | their recorded times are 30 s apart, plus the lag of the earlier query between clock and limiter, less that of the later |
| PresenceWitness.SpacedExactlyByHoldUps | backend/internal/presence/nearby_service.go:300-379 | all disclosures of pairs, in all runs, of which the earlier was held up for at most x and the later for at least y are 30 s apart if and only if x ≤ y |
| PresenceWitness.RecordedExactlyByLags | backend/internal/presence/nearby_service.go:300-379 | all recorded times of pairs, in all runs, of which the earlier lagged behind for at least y and the later for at most x are 30 s apart if and only if x ≤ y |
| PresenceWitness.OnePairIsDisclosedTwiceAtOnce | backend/internal/presence/nearby_service.go:300-379 | a run from the start with two equal entries of one pair, appended one after the other at one instant |
| PresenceGates.DisclosuresAreInRange | backend/internal/presence/nearby_service.go:249-298 | in every run nobody is disclosed to themself, and a disclosed target was neither paused nor invisible and within both users' radii by the rows the query had read, in the recorded bucket |
| PresenceTheorems.DisclosureRestsOnConsent | backend/internal/presence/settings_service.go:129-180 | in every run a disclosed target had, as of the row read, a grant less than 180 days before the query's clock reading, no later revoke, and a last write leaving it neither paused nor invisible; the grant checked an activated factor, which was one confirmed by a code for it if and only if it was marked by a verification that read it after it was enrolled, and so whenever the user did not enroll while verifying; the requester's row stands on the same kind of grant |
| PresenceTheorems.MarkIsForTheAcceptedSecret | backend/internal/auth/mfa/totp.go:98-127 | in every run the secret a verification activates is the one it accepted a code for if and only if the user enrolled nothing between its read and its write |
| PresenceTheorems.GrantIsForTheCheckedFactor | backend/internal/presence/settings_service.go:129-154 | in every run the factor behind a grant when it is written is the one it checked if and only if the user enrolled nothing in between |
| PresenceWitness.UnconfirmedFactorIsReliedOn | backend/internal/auth/mfa/postgres/repo.go:53-63 | a run from the start in which a disclosure rests on a grant behind a secret that no code was ever accepted for |
| PresenceWitness.GrantOutlivesItsFactor | backend/internal/presence/settings_service.go:129-154 | a run from the start that ends with an active consent and no activated factor |
| PresenceTheorems.ConsentAgeAtTheRead | backend/internal/presence/nearby_service.go:272-281 | in every run the grant behind a disclosure is, when the target's row is read, younger than 180 days plus what passed since the clock reading; it is under 180 days then if and only if the row would have passed then |
| PresenceWitness.ActiveAtReadExactlyIfReadAtOnce | backend/internal/presence/nearby_service.go:272-281 | all disclosures, in all runs, whose row was read within t of the clock reading rest on a consent active at the read if and only if t is zero |
| PresenceWitness.OldConsentIsReliedOn | backend/internal/presence/nearby_service.go:272-281 | for every hold-up of at least one tick a run from the start in which a disclosure relies on a consent 180 days old or more when the row was read |
| PresenceTheorems.AuditOnlyGrows | backend/internal/presence/nearby_service.go:374-379 | the audit log and the settings history only grow by appending |
| PresenceTheorems.AnswersAreAudited | backend/internal/presence/nearby_service.go:340-383 | in every run the answer of a finished query is, for ever after, exactly what the log holds for it |
| PresenceTheorems.RadiiAreAlwaysAllowed | backend/internal/presence/settings_service.go:83-103 | in every state of every run every row in force has an allowed radius |
| Conn.ReachableInv | backend/internal/presence/ws/conn.go:84-219 | the invariant holds in every state of every run |
| Conn.DeliveredInOrder | backend/internal/presence/ws/conn.go:84-137 | accepted frames equal written, in hand and buffered ones, in order, until a write fails; at most 8 are buffered; no channel is closed twice |
| Conn.SendsAreAnsweredRight | backend/internal/presence/ws/conn.go:84-103 | in every run a Send goes past its check only while the flag is not set; its frame is accepted and there was room, or it is not and the transport was closed or eight frames were buffered |
| Conn.FlushedBeforeClose | backend/internal/presence/ws/conn.go:167-219 | if no write fails and the drain timer does not fire, then before the transport is closed everything accepted up to a moment is written if and only if the drain had not ended at that moment, or everything was already written then |
| Conn.LateSendIsAcceptedAndLost | backend/internal/presence/ws/conn.go:84-103 | the other case happens: a run in which a Send past the flag check succeeds after the drain ended, for a frame that is never written |
| Conn.FailedWriteIsTheLast | backend/internal/presence/ws/conn.go:113-136 | in every run a write that fails outside the drain is the last: no frame is taken or written after it, and new Sends are refused before the transport is closed |
| Conn.TransportClosedLast | backend/internal/presence/ws/conn.go:113-206 | the transport is closed only after the drain or a failed write |
| Conn.DrainIsBounded | backend/internal/presence/ws/conn.go:157-197 | from the moment the flag is set the pump takes at most as many more frames as were buffered or under way |
| Conn.PumpIsNeverStuck | backend/internal/presence/ws/conn.go:113-206 | after shutdown is signalled the pump always has a step of its own, and each one brings its exit nearer |
| Conn.DrainTriesEverything | backend/internal/presence/ws/conn.go:167-197 | in every run a failed write does not end the drain: unless the timer fires, it ends only when every frame accepted at an earlier moment of it has been taken and tried |
| Conn.TimerEndsDrain | backend/internal/presence/ws/conn.go:167-206 | however much is still buffered, once the drain timer has fired the pump may end the drain, and then closes the transport and exits with nothing more written |
| Conn.PumpExits | backend/internal/presence/ws/conn.go:113-206 | left alone after close() the pump writes everything accepted, closes the transport and exits |
| Hub.ReachableInv | backend/internal/presence/hub.go:123-354 | the invariant holds in every state of every run |
| Hub.JobsAreConserved | backend/internal/presence/hub.go:207-295 | the channel never exceeds its capacity; accepted plus IngestDropped equals attempts; jobs leave in FIFO order; every accepted job is queued, held by exactly one worker, or finished |
| Hub.DeliveriesAreCounted | backend/internal/presence/hub.go:299-305 | FramesSent and FanoutDropped count every Send once, up to deliveries between Send and counter; exactly once nobody is in between |
| Hub.EachJobIsAnsweredOnce | backend/internal/presence/hub.go:245-305 | job by job: at most one frame is sent, to the job's own connection, with the results of its own service call or the drain frame for its own consent error, and nothing on other errors; exactly consent errors close the connection, once, after that frame; all of it is done when no worker is busy with the job |
| Hub.FramesSayTheOutcome | backend/internal/presence/hub.go:245-295 | the frame sent for a job is nearby_update with the results exactly if its service call answered, drain with the matching hint exactly for each consent error, and there is none on any other error; exactly the consent errors close |
| Hub.ShutdownReturnedNil | backend/internal/presence/hub.go:329-354 | when Shutdown returns nil every worker called Done exactly once, every connection registered at its start was offered its drain frame (a Send that may have failed and is then counted as dropped), and, with at least one worker and no cancelled context, every accepted job was processed exactly once |
| Hub.RegisteredIsInSnapshot | backend/internal/presence/hub.go:174-192 | a connection registered and neither replaced nor unregistered before Shutdown began is among those offered the drain frame |
| Hub.NoWorkersLoseJobs | backend/internal/presence/hub.go:156-157 | without workers a run exists where Shutdown returns nil with an accepted job unprocessed |
| Hub.CancelledWorkersLoseJobs | backend/internal/presence/hub.go:230-243 | the same with one worker whose context was cancelled |
| Hub.WorkersSettle | backend/internal/presence/hub.go:230-354 | in every run, from the moment the channel is closed all workers together make at most a computed number of moves, whoever else moves in between |
| Hub.WaitingCanReturnNil | backend/internal/presence/hub.go:230-354 | from every reachable waiting Shutdown the nil return is reached by at most that many worker moves, so the wait is never stuck |
| Delivery.SentUsersAreAudited | backend/internal/presence/hub.go:245-305 | with hub and presence service running together, the users of every frame sent for a job are exactly the audit entries of one query of the connection's user, and no two jobs share a query |
| Hub.StaleUnregisterKeepsNew | backend/internal/presence/hub.go:176-190 | in the registry a late Unregister of a replaced connection leaves the new one |
| Unregister.WhoStaysFound | backend/internal/presence/hub.go:176-192 | Unregister leaves a registered user discoverable if and only if another user's connection ends, or an old one of this user and the index did not take the removal |
| Unregister.TakesOwnEntry | backend/internal/presence/hub.go:176-192 | Unregister takes the position and the detail of the connection's user, up to the command that failed, and leaves everybody else's entries |
| Unregister.LateUnregisterHidesConnected | backend/internal/presence/hub.go:176-192 | a concrete late Unregister of a replaced connection leaves the user registered and no longer discoverable, and heartbeats do not change that |
| Tokens.TokenRepo.Store | backend/internal/auth/postgres/repo.go:105-111 | inserts an unrevoked row unless id or hash is taken |
| Tokens.TokenRepo.GetByHash | backend/internal/auth/postgres/repo.go:113-125 | the row with the hash, or the invalid-token error |
| Tokens.TokenRepo.RevokeOne | backend/internal/auth/postgres/repo.go:127-131 | the row with the id gets the revocation time if it has none; every other row, and everything else in this one, stays |
| Tokens.TokenRepo.LinkReplaced | backend/internal/auth/postgres/repo.go:133-137 | the row with the old id gets its successor and the revocation time; every other row stays |
| Tokens.TokenRepo.RevokeAll | backend/internal/auth/postgres/repo.go:139-143 | exactly the unrevoked rows of the user get the revocation time; every other row stays |
| Tokens.AuthService.IssueTokens | backend/internal/auth/service.go:417-457 | stores exactly one row for the plaintext it returns |
| Tokens.AuthService.IssueSession | backend/internal/auth/service.go:403-410 | nothing is stored when the device write fails |
| Tokens.AuthService.RefreshSession | backend/internal/auth/service.go:255-294 | reuse revokes all, revoked and expired tokens are refused, otherwise store then link; with every failure in between |
| Tokens.AuthService.LogoutOne | backend/internal/auth/service.go:300-318 | revokes the presented token; an unknown one is no error |
| Tokens.AuthService.LogoutEverywhere | backend/internal/auth/service.go:322-330 | revokes every token of the user |
| TokensFlows.RefreshIsIssuedExactly | backend/internal/auth/service.go:255-294 | a Refresh is answered with a new token if and only if the plaintext is that of a row neither replaced nor revoked nor expired, and every statement on the way works |
| TokensFlows.RefreshRefuses | backend/internal/auth/service.go:271-282 | a replaced token is answered as reused and revokes exactly the user's unrevoked rows; a revoked or expired one is answered as such and changes nothing |
| TokensFlows.RefreshRedeems | backend/internal/auth/service.go:284-293 | a redeemable token: the row added, what becomes of the presented one, and the answer, for every failure in between |
| TokensFlows.RefreshFindsNothing | backend/internal/auth/service.go:255-269 | a missing, unreadable or unknown token changes nothing, the errors told apart |
| TokensFlows.IssuedTokenExpires | backend/internal/auth/service.go:280-282 | over any run a plaintext handed out is good for nothing from its lifetime on |
| TokensFlows.SessionIs | backend/internal/auth/service.go:403-457 | a session adds one row valid for the configured time, or nothing; the plaintext is handed out if that was acknowledged |
| TokensFlows.LogoutOfKnown | backend/internal/auth/service.go:300-318 | a logout of a known token revokes its row unless revoked already, and no other |
| TokensFlows.LogoutOfUnknown | backend/internal/auth/service.go:300-318 | any other logout changes nothing; an unknown token is no error |
| TokensFlows.LogoutAllIs | backend/internal/auth/service.go:322-330 | a full logout revokes exactly the user's unrevoked rows |
| TokensRun.ReachableForest | backend/internal/auth/service.go:255-330 | after any run replaced tokens are revoked, their successor is a later row of the same user and device, and no two share one |
| TokensRun.ChainHasOneLiveToken | backend/internal/auth/service.go:255-294 | every chain of links is acyclic, stays with one user and device, and only its last token can be unrevoked |
| TokensRun.ChainsDoNotMerge | backend/internal/auth/service.go:255-294 | two chains are disjoint unless one is the end of the other |
| TokensRun.RevocationIsNeverUndone | backend/internal/auth/postgres/repo.go:127-143 | over any stretch of any run rows keep their identity, revocation time and successor |
| TokensRun.SingleUse | backend/internal/auth/service.go:271-291 | over any run a plaintext rotates at most once; presented again it is answered as reused |
| TokensRun.IssuedTokenIsRedeemable | backend/internal/auth/service.go:417-441 | an issued plaintext, presented before it expires, rotates |
| TokensRun.OthersAreUntouched | backend/internal/auth/service.go:255-330 | an operation on one user's tokens changes no row of another user and adds none for another |
| TokensRun.RotationExchangesOne | backend/internal/auth/service.go:280-293 | a successful rotation revokes and links exactly the presented row and adds one live row for the same user and device |
| TokensRun.LiveTokensAreBounded | backend/internal/auth/service.go:255-330 | a user's unrevoked tokens and the live ones logged out one by one are exactly the sessions begun since the last revoke-all plus the rotations that stopped halfway; the tokens stay within the sessions if and only if at least as many were logged out as rotations stopped halfway |
| TokensRun.RefreshRaisesExactlyHalfDone | backend/internal/auth/service.go:280-293 | a Refresh raises a user's live tokens if and only if it stores the new token and does not link the presented one |
| TokensRun.LiveTokensAtMostSessions | backend/internal/auth/service.go:255-330 | with rotations that run to their end the sessions bound the tokens |
| TokensRun.HalfDoneRotationLeavesTwo | backend/internal/auth/service.go:284-291 | when linking fails after storing, one session has two live tokens |
| TokensRun.ReuseLocksOut | backend/internal/auth/service.go:271-276 | after a reuse answer or a full logout the user has no unrevoked token and every Refresh with one of that user's tokens fails until a new session |
| Playlist.PlaylistTrackRepo.Add | backend/internal/library/postgres/repo.go:92-98 | inserts the entry unless its id is taken |
| Playlist.PlaylistTrackRepo.Remove | backend/internal/library/postgres/repo.go:100-110 | no entry of the track is left in the playlist, every other row is kept in order, and it is an error exactly if there was no entry |
| Playlist.PlaylistTrackRepo.List | backend/internal/library/postgres/repo.go:112-131 | ascending by position, with exactly the playlist's rows, each as often as the table has it |
| Playlist.PlaylistTrackRepo.MaxPosition | backend/internal/library/postgres/repo.go:133-143 | a position of the playlist that none exceeds; none exactly for an empty playlist |
| Playlist.PlaylistService.CheckOwned | backend/internal/library/service.go:246-258 | only the owner passes; each refusal has its own error |
| Playlist.PlaylistService.ComputePosition | backend/internal/library/service.go:260-283 | half the lowest position for the start, 1024 past the highest otherwise, 1024 when empty |
| Playlist.PlaylistService.AddTrack | backend/internal/library/service.go:132-165 | adds one entry with the given fields at the computed position exactly when the checks pass, and changes nothing otherwise; each refusal has its own error |
| Playlist.PlaylistService.RemoveTrack | backend/internal/library/service.go:169-183 | drops the track's entries for the owner, an error if there was none; each refusal has its own error |
| PlaylistRun.OnlyOneOrder | backend/internal/library/postgres/repo.go:112-131 | with distinct positions any ascending order of the same rows is that listing |
| PlaylistRun.PlacedIs | backend/internal/library/service.go:260-283 | the computed position in terms of the rows: half the lowest for the start, 1024 past the topmost otherwise, 1024 in an empty playlist |
| PlaylistRun.ChangeRefines | backend/internal/library/service.go:132-183 | a change acts on the listing as prepend, append or delete on a plain sequence whenever the new position goes where it should |
| PlaylistRun.ExactRunRefinesSequence | backend/internal/library/service.go:260-283 | in exact arithmetic after any run every listing is the plain sequence, at positive distinct positions |
| PlaylistRun.BinaryRunRefinesSequence | backend/internal/library/service.go:260-283 | in binary64 the same after any run with at most 1085 puts in front of the nonempty playlist and 2^53 puts in all; positive with at most 1084 |
| PlaylistRun.OneMoreStartCollides | backend/internal/library/service.go:260-273 | the first bound is sharp: one more put in front takes a position twice |
| PlaylistRun.HalvingIsExactThrough1084 | backend/internal/library/service.go:260-273 | 1024 halved k times is exact for k up to 1084 and zero from 1085 on |
| PlaylistRun.PowerTimes | backend/internal/library/service.go:19 | the value after k halvings times 2^k is 1024 |
| PlaylistRun.StartIsInFront | backend/internal/library/service.go:272 | half the lowest position lies before it if and only if it is positive |
| PlaylistRun.EndIsBehind | backend/internal/library/service.go:282 | for a highest position up to 2^63, adding 1024 raises it if and only if it is below 2^63 |
| Binary64.RoundIsNearestEven | backend/internal/library/service.go:260-283 | the rounding used is to the nearest binary64 number, ties to even, section 4.3.1 of IEEE 754 |
| Keyset.Search | backend/internal/catalog/postgres/repo.go:99-147 | with the limit the services bound to between one and their maximum: the first `limit` matching rows after the cursor in key order, and a next cursor exactly if there are more |
| Keyset.PageIs | backend/internal/catalog/postgres/repo.go:119-146 | a page has at most `limit` keys, ascending and selected; with a next cursor it has exactly `limit`, the cursor is the last of them, something is left over, and all of that lies after it |
| Keyset.NextPageContinues | backend/internal/catalog/postgres/repo.go:140-146 | continuing after the last key of a cut page finds exactly the rest |
| Keyset.PagesMakeTheFullList | backend/internal/catalog/postgres/repo.go:99-147 | following the cursor ends, and the pages together are the full sorted match list |
| Keyset.NothingIsFetchedTwice | backend/internal/catalog/postgres/repo.go:200-243 | if rows come and go between pages the fetched keys still strictly ascend, so none comes twice |
| Keyset.FetchedRowsWereThere | backend/internal/catalog/postgres/repo.go:200-243 | and each fetched key matched and was in a table a page was read from |
| Keyset.PresentRowsAreFetchedOnce | backend/internal/catalog/postgres/repo.go:363-406 | a matching row present whenever a page was read is returned exactly once by the end |
| Keyset.RowOrdersAreTotal | backend/internal/library/postgres/repo.go:175-226 | both row orders in use, ascending (name, id) and descending (added_at, track_id), are strict total orders, so all of this holds for them |
| PasswordHash.Base64RoundTrip | backend/internal/auth/password/argon2.go:105-111 | base64 decoding undoes unpadded encoding for all bytes, and the text has no separator |
| PasswordHash.DecodeUndoesPrint | backend/internal/auth/password/argon2.go:93-160 | for all memory, time, threads, salt and key, decoding the printed hash gives them back |
| PasswordHash.VerifyAcceptsOwnHash | backend/internal/auth/password/argon2.go:93-128 | a password verifies against its own hash, for every pepper and salt, if and only if the key is at most 1024 bytes; a longer one is refused |
| PasswordHash.OthersAreRefused | backend/internal/auth/password/argon2.go:113-128 | another password verifies against a hash if and only if it derives the same key under that salt, parameters and length, keyed with the pepper if there is one; otherwise the answer is no |
| PasswordHash.VerifyComparesKeys | backend/internal/auth/password/argon2.go:113-128 | any string that decodes to a key of at most 1024 bytes accepts exactly the passwords that derive that key; any other gets an error |
| PasswordHash.HashText | backend/internal/auth/password/argon2.go:93-111 | the text of a hash, part by part |
| PasswordHash.EncodesTestVectors | backend/internal/auth/password/argon2.go:105-111 | the encoding gives the test vectors of section 10 of RFC 4648, without padding |
| PasswordHash.OthersDoNotDecode | backend/internal/auth/password/argon2.go:130-143 | another algorithm is an invalid hash, another version an incompatible one |
| PasswordHash.DecodeNeedsFiveDollars | backend/internal/auth/password/argon2.go:130-135 | strings without exactly five separators are rejected, and parameters never decode out of range |
| PasswordHash.PrintNormalizes | backend/internal/auth/password/argon2.go:130-160 | printing what was decoded gives a string that decodes to the same |
| PasswordHash.DecodeIsLenient | backend/internal/auth/password/argon2.go:130-160 | text before the first separator, after the version and after the last parameter is ignored |
| PasswordHashText.DecodesExactly | backend/internal/auth/password/argon2.go:150-157 | a salt or key decodes if and only if it holds symbols of the alphabet and line breaks alone, and not one symbol too many for a byte; line breaks make no difference |
| PasswordHashText.VersionIsRead | backend/internal/auth/password/argon2.go:137-143 | however the version is written, with blanks, a sign and a tail: any but 19 is incompatible, one of more than 64 bits is invalid, and 19 never is incompatible |
| PasswordHashText.ParamsAreRead | backend/internal/auth/password/argon2.go:145-148 | three numbers, with blanks and a tail, are the parameters if and only if memory and time fit 32 bits and threads fits 8 |
| PasswordHashText.LineFeedIsRefused | backend/internal/auth/password/argon2.go:137-148 | a line feed before a number is an error, unlike other blanks |

## Left out

- Nearby.NearbyService.QueryFrom: all reads of one query are taken at one instant here; `PresenceRun` lets them interleave.
- GeoStore.Store.Upsert: time-to-live values are positive; the Redis client's meaning of zero and negative ones is not modelled.
- Settings.SettingsService.GrantConsent: its factor check and its write are one call here; `PresenceRun` lets others in between.
- Settings.SettingsService.Update: overlapping writes to one user's row; each whole-row read-modify-write is one step.
- Tokens.AuthService.RefreshSession: overlapping rotations of one token; each flow is one step with one clock reading.
- Playlist.PlaylistService.AddTrack: overlapping changes of one playlist, and a position passing through the NUMERIC column, which keeps the order and gives back the same binary64 number.
- PasswordHash.VerifyAcceptsOwnHash: the derivation's panic for zero iterations or threads, and key length 0, for which it does not return either; it is any function that returns as many bytes as asked for.
- Keyset.Search: a cursor string is absent, the encoding of a key, or malformed; JSON and base64 of cursors are an inverse pair. The text collation and the id order are any strict total orders.
- Delivery.SentUsersAreAudited: the frames that SendResync sends outside the worker pool.
- Hub.ShutdownReturnedNil: enqueuing after the channel is closed, which panics in Go, and a second Shutdown.
- Disconnect is Store.Remove; who holds a connection does not constrain who sends frames.
- Distances are one abstract metric shared by Redis and the radius gate; haversine, its rounding, and the difference between the two are not modelled.
- Jitter is a parameter at most 75 m away; how it is drawn is not modelled.
- Argon2, HMAC, SHA-256, JWT, TOTP code computation and random sources are arbitrary functions or parameters.
- Audit row ids, created_at columns, Retry-After rendering and log lines.
- A command that Redis executes after its caller has given up is modelled as a lost reply at the time of the call, not later.
- HTTP handlers, middleware, WebSocket upgrade and JSON frames, configuration and wiring, the frontend, deployment.
- Catalog, playlist and saved-track create, read and delete operations, playback sessions, media URLs, roles: only easy properties.
- Deleting users or devices, whose cascades would remove rows of the token and playlist tables.
