# Verified model of the marketing platform's core services

This project models, in Dafny, the stateful core of the platform and proves what that core is relied on
for. `dafny verify dfyconfig.toml` checks everything.

Each part has the same shape. Tables are sequences of rows and the id of a row is its position. A
specification function (`Apply`, `Sync`, `Pass`, `Resolve`, ...) says what one operation makes of the
tables. A class holds the tables as fields and its methods carry the operation out in the order and with
the branches of the source, and each method is proved to do exactly what the specification function says.
The laws are then lemmas about the specification functions: over every input, over every run of
operations, or over every state that meets the table constraints. What a specification function itself
says is told a second time, from the raw rows, literal keys and numbers and without its parts: these are the
lemmas named `...Verdict`, `...Lines` and the like in AuthVerdicts, RateLimitRoutes, AdRows,
AdDashboardLines, AnalyticsLines, PublishingReady, RemoteSyncVerdicts, DriveFiles and SettingsVerdicts.

| part | files | what it is about |
|---|---|---|
| sessions and lockout | Auth, AuthFlow, AuthSafety, AuthLockout, AuthVerdicts | login, refresh-token rotation and reuse detection, logout, mass revocation, password reset and change, account lockout |
| rate limiters | RateLimit, RateLimitRoutes, RateLimitBursts, ApiKeyLimit | the sliding log on the login endpoints, the fixed-window counter on API keys |
| ad hierarchy | Tables, AdStore, AdSync, AdSyncLaws, AdSyncTheorems, AdRows, AdConflict, AdConflictDates | the cached three-level upsert with pending metric rows |
| dashboards | Sums, AdDashboard, AdDashboardLines, Analytics, AnalyticsLaws, AnalyticsLines | grouped totals over joins, metric upserts, aggregate scope, daily totals |
| publishing | Publishing, PublishingChannels, PublishingSafety, PublishingReady, PublishingReset, PublishingDue, PublishingEdit, PublishingService | publishing to channels, the due sweep, choosing channels, editing what is out |
| remote reconciliation | RemoteSync, RemoteSyncVerdicts, RemoteSyncLaws, RemoteSyncFixpoint, RemoteSyncSettling, RemoteSyncTwins | attaching remote ids, importing, removing what is gone |
| Drive | Drive, DriveLaws, DriveFiles, DriveFixpoint | the paged folder sync |
| settings | Decimal, Settings, SettingsLaws, SettingsVerdicts, SettingsTable, SettingsService | validate, store, read back |
| shared | Common, Text | `SELECT ... LIMIT 1`, counting, Python string operations |

## How the source is read

- One call is one atomic step with one clock value. The source takes no row lock: two calls that
  interleave between their SELECT and their UPDATE are outside the model.
- A token digest is an injective constructor. Tokens from the random generator are never repeated; that is
  the hypothesis `FreshRun`. JWT decoding, TOTP checks and password hashing answer correctly and appear as
  parameters of a request.
- Remote networks are oracles: an answer for every delivery, post or file. `Publishing.Db.sent` and
  `Auth.Db.chains` are history variables that no operation reads.
- Time is an integer. Amounts of money and metric values are integers in millionths.
- Sessions are `autoflush=False` (`app/db.py:47`): a metric row that was added and not flushed is invisible
  to the next lookup, and so is a remote id that was assigned and not flushed. Both are modelled
  (`AdStore.Db.pending`, `RemoteSync.Post.storedId`).

## What turned out false

- Two requests with one timestamp collapse into one member of the rate limiter's sorted set, so any number
  of simultaneous requests gets through: `RateLimit.SameInstantAllLetThrough`. The allowance bounds the
  distinct times always. With at most `m` attempts at one instant a window lets at most
  `(allowance - 1) * m + 1` requests through, that many do get through, and so the allowance bounds the
  requests if and only if `m <= 1` (`RateLimitBursts`).
- A batch of ad rows that measures one ad twice on one day may break the unique constraint;
  `AdConflict.ConflictExactlyAtClash` says exactly when all dates parse,
  `AdConflictDates.ConflictExactlyAtNoticedClash` when they need not, and `AdConflict.TwoRowsOfOneDay` and
  `AdConflict.ConflictWitness` show the smallest case.
- Syncing a remote listing twice need not settle: with two listed posts of one text every further pass
  changes the tables again (`RemoteSyncTwins.TwinsNeverSettle`).
  `RemoteSyncSettling.SettlesExactlyWhenRepaired` says exactly when a second pass is idle: whenever a match
  takes a post over from a listed id, that id is shown elsewhere or attached again later in the pass.
  `RemoteSyncSettling.UnambiguousSettles` gives a sufficient condition on the tables and the listing alone.
- An edit may take the published status of a post back, and the post can then be sent a second time.
  `PublishingReset.ResetIsHarmlessExactlyWhenUnsent` says exactly when: no continuation sends anything twice
  if and only if nothing of the post was sent, that is, it did not go straight to its channel and none of its
  deliveries is published. `PublishingSafety.SentAtMostOnce` covers every run with no other resets.
- Deleting a setting does not unset it for `resolve_value`, which ignores the active flag
  (`SettingsLaws.DeletionDoesNotUnset`). The login service reads its settings through another function that
  does look at it (`app/services/auth_flow.py:78-94`).
- A specification that restricts the values of a JSON setting would make reading raise on a stored list
  (`SettingsLaws.ReadsWellExactlyWhenSound`); none of the application's does.
- An asset that shares its Drive id with an older asset is not reactivated by a sync
  (`DriveLaws.SharedIdStaysMissing`); `DriveLaws.SyncVerdict` gives the exact condition without assuming unique ids, `ActiveExactlyWhenListed` the promise with them.

## Model

| member | source | states |
|---|---|---|
| `AuthFlow.AuthService.IssueTokens` | app/services/auth_flow.py:705-727 | a new session is appended with the digest of the minted token, no previous digest and a fixed expiry, and the token is recorded as the first of its history |
| `AuthFlow.AuthService.Login` | app/services/auth_flow.py:439-497 | the reply and both tables are those of a login: provider, lock, wrong password, forced change, second factor and success in that order |
| `AuthFlow.AuthService.MfaVerify` | app/services/auth_flow.py:574-591 | a right code opens a session, a wrong one changes nothing |
| `AuthFlow.AuthService.Refresh` | app/services/auth_flow.py:601-647 | the reply and the session table are those of a refresh: rotation, reuse detection, expiry, refusal |
| `AuthFlow.AuthService.Logout` | app/services/auth_flow.py:660-673 | logout revokes the session holding the token, or reports that there is none |
| `AuthFlow.AuthService.RevokeSessionsForPerson` | app/services/auth_flow.py:354-377 | the loop revokes every live session of the person but the excluded one and returns how many |
| `AuthFlow.AuthService.RevokeOthers` | app/api/auth_flow.py:381-407 | all live sessions of the caller but the current one are revoked and counted |
| `AuthFlow.AuthService.RevokeSession` | app/api/auth_flow.py:347-371 | only the caller's own session is revoked, and not twice |
| `AuthFlow.AuthService.DeleteSession` | app/services/auth.py:356-362 | the session is revoked whoever owns it and whatever its status |
| `AuthFlow.AuthService.RequireUserAuth` | app/services/auth_dependencies.py:140-150 | access exactly through an unexpired, live session of the person; the web guard (app/web/deps.py:138-149) makes the same test |
| `AuthFlow.AuthService.ResetPassword` | app/services/auth_flow.py:760-794 | a reset replaces the password, clears failures and lock, and revokes all sessions |
| `AuthFlow.AuthService.ChangePassword` | app/api/auth_flow.py:418-445 | a change needs the old password and a different new one, and revokes all sessions |
| `Auth.StepShape` | app/services/auth_flow.py:439-497 | every request opens one session, rotates one session, or hands out no token and at most ages rows |
| `Auth.StepKeepsInv` | app/services/auth_flow.py:601-647 | each request keeps: a row holds the last two digests of its history, revoked exactly when it says when, and no token was handed out twice |
| `AuthSafety.ReachableStatesMeetInv` | app/services/auth_flow.py:601-647 | from any credentials and no session, every reachable state has distinct current digests, disjoint from all spent ones, one acceptable token per session |
| `AuthSafety.RunKeepsInv` | app/services/auth_flow.py:705-727 | the invariant holds over every run of requests |
| `AuthSafety.RefreshVerdict` | app/services/auth_flow.py:601-647 | for every token ever handed out: the last of a live session rotates, the one before revokes the session, every older one is refused with no state change |
| `AuthSafety.ForgedTokenRefused` | app/services/auth_flow.py:605-626 | a token never handed out is refused with no state change |
| `AuthSafety.TokenAcceptedAtMostOnce` | app/services/auth_flow.py:601-647 | over every run, no refresh token is accepted twice |
| `AuthSafety.RunOnlyAges` | app/services/auth_flow.py:627-641 | over every run a session only goes active to expired or revoked, or expired to revoked; owner, creation and expiry never change; its history only grows |
| `AuthSafety.DeadSessionNeverUsed` | app/services/auth_dependencies.py:140-150 | once a session is not live, no later refresh or access check of any run succeeds through it |
| `AuthSafety.NoUseAfterExpiry` | app/services/auth_dependencies.py:140-150 | no chain of refreshes gives access at or after the expiry fixed at login |
| `AuthSafety.ReplayEndsSession` | app/services/auth_flow.py:610-626 | replaying the token just rotated out is refused as reuse and the session is dead for the rest of the run |
| `AuthSafety.MassRevocationIsExact` | app/services/auth_flow.py:354-377 | mass revocation leaves live exactly what was live and is another person's or excluded, touches no other row, and the count is the number changed |
| `AuthSafety.NewPasswordEndsOldSessions` | app/services/auth_flow.py:786-794 | after a reset or change no session the person had is used again in any run |
| `AuthLockout.StepCounts` | app/services/auth_flow.py:466-489 | only a compared wrong password moves counter and lock: a lock running out resets nothing |
| `AuthLockout.FailuresAreSpaced` | app/services/auth_flow.py:466-476 | over every run without a clearing, failures from the fifth on are a full lock time apart |
| `AuthLockout.LockoutBound` | app/services/auth_flow.py:466-489 | at most five wrong passwords plus one per full fifteen minutes since the fifth are compared |
| `AuthLockout.LockHolds` | app/services/auth_flow.py:460-465 | until a lock runs out every login to the credential is refused and none prolongs it |
| `AuthVerdicts.LoginAnswer` | app/services/auth_flow.py:450-497 | of the credential a login finds: tokens exactly when it is unlocked, the password is its own, no change is forced and no second factor is due; the second factor asked of its person exactly when all but that holds; locked, wrong password and forced change each exactly when due |
| `AuthVerdicts.LoginEffect` | app/services/auth_flow.py:466-497 | on success, second factor due or not, counter 0, no lock, login time now; on a wrong password one more failure and from the fifth a lock of fifteen minutes; a session only with tokens, of that person, ending the days asked for from now; nothing else changes |
| `AuthVerdicts.LoginWithoutCredential` | app/services/auth_flow.py:446-461 | a login no active credential answers changes nothing and is refused as invalid provider exactly when it names another than local and sso |
| `AuthVerdicts.EverySessionWasEarned` | app/services/auth_flow.py:439-591 | in every reachable state each session goes back to a login with the right password of an unlocked credential that needs no second factor, or to a right second factor, of its own person, and still ends when that request said |
| `AuthVerdicts.RefreshAccepts` | app/services/auth_flow.py:601-647 | in a state that meets the invariant a token is exchanged exactly through a usable, unexpired session that holds it, and reported as reused exactly when a usable session was rotated out of it |
| `AuthVerdicts.ReuseRevokes` | app/services/auth_flow.py:610-626 | reuse marks that session revoked, with the time, and no other row |
| `AuthVerdicts.LogoutVerdict` | app/services/auth_flow.py:660-673 | logout revokes exactly the session that holds the token unless it was revoked, expired or not |
| `AuthVerdicts.OneRevocation` | app/api/auth_flow.py:347-371 | one session is marked revoked with the time: by its owner when not yet revoked, by an administrator always; the refusals are told apart |
| `AuthVerdicts.OthersVerdict` | app/api/auth_flow.py:381-407 | exactly the usable sessions of the caller other than the current one are revoked, and their number is returned |
| `AuthVerdicts.ResetVerdict` | app/services/auth_flow.py:760-794 | the first active credential of the person gets the new password, no forced change, no failures and no lock; all usable sessions are revoked and counted |
| `AuthVerdicts.ChangeVerdict` | app/api/auth_flow.py:418-445 | the new password is stored exactly when the old one is right and differs; the lockout is left alone; all usable sessions are revoked and counted |
| `RateLimit.Limiter.Dispatch` | app/middleware/rate_limit.py:129-203 | the decision from the pruned, expiring store is the decision from the full history |
| `RateLimit.EndpointVerdict` | app/middleware/rate_limit.py:129-145 | the cleaned path finds an endpoint exactly for a POST to its route, bare or behind /api/v1 |
| `RateLimitRoutes.LimitedExactly` | app/middleware/rate_limit.py:130-145 | in every run of requests, limited are exactly the POSTs to the four routes, bare or behind /api/v1 |
| `RateLimitRoutes.AnswerVerdict` | app/middleware/rate_limit.py:130-198 | the answer to any limited request of a run: refused exactly when that client posted to that route, in either spelling and with whatever answer, at 10, 5, 10 or 5 different times in the 60, 300, 60 or 300 seconds before; else the right number remains |
| `RateLimitRoutes.RunsAreBounded` | app/middleware/rate_limit.py:26-31 | over every run and every such interval a client is let through to a route at no more than 10, 5, 10 or 5 different times |
| `RateLimit.Limiter.Pipeline` | app/middleware/rate_limit.py:160-170 | the pipeline counts what is left in the window before it adds the request and renews the expiry |
| `RateLimit.KeptIsWindow` | app/middleware/rate_limit.py:157-168 | the pruned set equals the attempts of the whole history in the window; EXPIRE never changes it |
| `RateLimit.AddKeepsStore` | app/middleware/rate_limit.py:160-170 | the agreement between store and history survives every attempt |
| `RateLimit.DecideFromStore` | app/middleware/rate_limit.py:170-198 | admitted exactly when fewer than the allowed number of attempts lie in the window, with the right remainder |
| `RateLimit.WindowBound` | app/middleware/rate_limit.py:157-176 | in any half-open interval one window long a key is let through at no more than the allowed number of times |
| `RateLimit.WindowBoundOnRequests` | app/middleware/rate_limit.py:157-176 | the same for requests, when no two share a timestamp |
| `RateLimit.SameInstantAllLetThrough` | app/middleware/rate_limit.py:164 | without that hypothesis any number gets through at one instant |
| `RateLimitBursts.BurstsAreBounded` | app/middleware/rate_limit.py:157-176 | with at most m attempts of a key at one instant, any window of any history lets at most (allowance - 1) * m + 1 requests through |
| `RateLimitBursts.BoundIsReached` | app/middleware/rate_limit.py:157-176 | some history lets exactly that many through |
| `RateLimitBursts.AllowanceHoldsExactlyWithoutBursts` | app/middleware/rate_limit.py:164-176 | the allowance bounds the requests of every window of every such history if and only if m <= 1 |
| `RateLimit.QuietKeyLetThrough` | app/middleware/rate_limit.py:157-198 | a key silent for a full window has its full allowance again |
| `RateLimit.HammeringStaysRefused` | app/middleware/rate_limit.py:164-176 | refused attempts count too: a client above the limit in every window stays refused |
| `ApiKeyLimit.ApiKeys.Generate` | app/services/auth.py:367-400 | the counter decides as counting the bucket in the whole history would; an expiry never fires before its bucket ends |
| `ApiKeyLimit.AdmittedPerBucket` | app/services/auth.py:385-392 | a bucket admits its first requests up to the allowance, exactly |
| `ApiKeyLimit.AdmittedPerInterval` | app/services/auth.py:385-392 | any half-open interval of one window admits at most twice the allowance |
| `ApiKeyLimit.TwiceIsReached` | app/services/auth.py:385-392 | twice the allowance is reached |
| `AdSync.AdSyncService.LoadCampaignCache` | app/services/ad_sync_service.py:88-94 | the preloaded cache holds exactly what a lookup of each campaign would return |
| `AdSync.AdSyncService.UpsertCampaign` | app/services/ad_sync_service.py:107-121 | cached upsert of a campaign equals the lookup-and-write, and the cache stays right |
| `AdSync.AdSyncService.UpsertGroup` | app/services/ad_sync_service.py:123-144 | the same for ad groups |
| `AdSync.AdSyncService.UpsertAd` | app/services/ad_sync_service.py:146-167 | the same for ads |
| `AdSync.AdSyncService.UpsertMetric` | app/services/ad_sync_service.py:169-191 | a stored daily metric is overwritten, any other is added unflushed |
| `AdSync.AdSyncService.SyncPlatformRows` | app/services/ad_sync_service.py:70-197 | the cached loop refines the cache-free fold: same tables, ids and count, or the same failure |
| `AdSyncLaws.SyncRowsArePuts` | app/services/ad_sync_service.py:96-197 | a batch is a sequence of upserts by natural key, and the count is the number of rows with campaign, ad and date |
| `AdSyncTheorems.LastRowWins` | app/services/ad_sync_service.py:96-191 | names and daily values after a sync are those of the last row about them, or the old ones |
| `AdRows.ReadingIds` | app/services/ad_sync_service.py:36-61 | which key of the flat dict gives each id, on each platform |
| `AdRows.ReadingValues` | app/services/ad_sync_service.py:25-30 | each number comes from its own key, a bad or missing one is zero, cpc goes before average_cpc, an empty currency is none |
| `AdRows.ReadingDate` | app/services/ad_sync_service.py:164-168 | the day is that of date_start, and of date only when there is no date_start |
| `AdRows.MetricVerdict` | app/services/ad_sync_service.py:96-191 | after a completed sync of adapter rows the stored metric of an ad and day holds the numbers under their keys in the last row about them; any other stored metric is an old one, unchanged |
| `AdRows.CampaignVerdict` | app/services/ad_sync_service.py:107-121 | the stored campaign has the name under its key in the last row about it, or is an old one, unchanged; a new one starts active and unlinked, an old one keeps status and link |
| `AdRows.GroupVerdict` | app/services/ad_sync_service.py:123-144 | the same for ad groups |
| `AdRows.AdVerdict` | app/services/ad_sync_service.py:146-167 | the same for ads |
| `AdRows.RowsAreStored` | app/services/ad_sync_service.py:96-191 | every row with a campaign and an ad is stored at all three levels, and its day too when it has one |
| `AdRows.CountVerdict` | app/services/ad_sync_service.py:193-197 | the count returned is the number of rows with a campaign, an ad and a date |
| `AdSyncTheorems.SyncTwiceIsOnce` | app/services/ad_sync_service.py:96-197 | syncing the same batch again changes no row, no id and not the count |
| `AdSyncTheorems.SyncKeepsConstraints` | app/models/ad_campaign.py:66-162 | a completed sync keeps every unique key and foreign key and leaves nothing pending |
| `AdSyncTheorems.SyncKeepsOtherAccounts` | app/services/ad_sync_service.py:88-94 | a sync changes no row of another channel or platform |
| `AdConflict.ConflictExactlyAtClash` | app/services/ad_sync_service.py:169-197 | a batch whose dates all parse violates the metric constraint if and only if two rows measure one unstored ad and day with no flush between them |
| `AdConflictDates.ConflictExactlyAtNoticedClash` | app/services/ad_sync_service.py:169-197 | any batch, dates that do not parse included, violates the constraint if and only if a clash is followed by a flush before the first row that raises, or by the end of a batch in which none does; else it raises there or completes |
| `AdConflict.TwoRowsOfOneDay` | app/services/ad_sync_service.py:169-197 | on empty tables two rows about one ad and day fail, and go through when a row between them names another ad |
| `AdConflict.ConflictWitness` | app/services/ad_sync_service.py:169-197 | a concrete batch that fails |
| `AdConflict.DistinctRowsNeverConflict` | app/services/ad_sync_service.py:169-197 | a batch that measures no ad twice on a day always completes |
| `AdDashboard.SummaryAddsUpToOverview` | app/services/ad_dashboard_service.py:29-76 | the platform lines add up to the overview, for each measure |
| `AdDashboard.CampaignsAddUpToPlatform` | app/services/ad_dashboard_service.py:78-124 | the campaign lines add up to the line the summary shows for their platform, or to the overview |
| `AdDashboard.PlatformTotalIsFlat` | app/services/ad_dashboard_service.py:49-76 | joining from campaigns down and from metrics up gives one total |
| `AdDashboard.DailyTotalsAddUp` | app/services/ad_dashboard_service.py:221-259 | the daily series adds up to the overview, and that of a platform to the line the summary shows for it |
| `AdDashboard.DetailAddsUp` | app/services/ad_dashboard_service.py:126-219 | a campaign's line is the sum of its groups and of its ads |
| `AdDashboardLines.OverviewVerdict` | app/services/ad_dashboard_service.py:29-47 | the overview is one pass over the metric rows: each of the four columns added up over the dates, both ends included |
| `AdDashboardLines.PlatformLines` | app/services/ad_dashboard_service.py:49-76 | a platform has a line exactly when a metric in range is of it, and the line is the pass over those metrics |
| `AdDashboardLines.CampaignLines` | app/services/ad_dashboard_service.py:78-124 | the same for campaigns, of the platform asked for, with platform and name |
| `AdDashboardLines.GroupLines` | app/services/ad_dashboard_service.py:139-177 | the same for the groups of a campaign |
| `AdDashboardLines.AdLines` | app/services/ad_dashboard_service.py:179-213 | the same for the ads of a campaign, with the name of their group |
| `AdDashboardLines.DayLines` | app/services/ad_dashboard_service.py:221-259 | the same for the days of the range, of one platform or of all |
| `AdDashboard.IntactMeetsForeignKeys` | app/models/ad_campaign.py:66-162 | what a sync leaves meets the hypothesis of these laws |
| `Analytics.AnalyticsService.UpsertMetric` | app/services/analytics_service.py:311-351 | one row per channel, post or none, date and type: overwritten in place or appended |
| `AnalyticsLaws.UpsertsKeepLastValue` | app/models/channel_metric.py:48-66 | over any sequence of upserts keys stay unique and each holds the last value written; repeating the sequence changes nothing |
| `Analytics.ScopeIsOneLevel` | app/services/analytics_service.py:60-85 | with no post chosen an aggregate is over the channel-level rows that pass, or, if none, the post-level ones: never both |
| `AnalyticsLaws.OverviewIsBreakdownSum` | app/services/analytics_service.py:128-148 | the overview lists exactly the types with data, each with the sum of its daily breakdown |
| `Analytics.AnalyticsService.GetDailyTotals` | app/services/analytics_service.py:150-200 | the dictionary loop yields the daily series, one line per day with data, in order |
| `AnalyticsLaws.DayListedExactlyWithData` | app/services/analytics_service.py:150-200 | a day has a line exactly when a row in scope of one of the four types is of that day |
| `AnalyticsLaws.DailyTotalsFallShort` | app/services/analytics_service.py:150-200 | the daily series of each of its four types differs from the overview by less than one per listed day, and falls short when no value is negative |
| `AnalyticsLines.ScopeVerdict` | app/services/analytics_service.py:60-85 | which rows an aggregate is over: dates, channel and day asked for, the chosen post, or else whole channels and only without such rows posts |
| `AnalyticsLines.OverviewVerdict` | app/services/analytics_service.py:128-148 | the overview has exactly the types of those rows, each with the sum of their values |
| `AnalyticsLines.BreakdownVerdict` | app/services/analytics_service.py:202-240 | each line of the breakdown is a day and type with such a row and the sum of them; days in order, no day and type twice |
| `AnalyticsLines.BreakdownIsComplete` | app/services/analytics_service.py:202-240 | every day and type with such a row has a line |
| `AnalyticsLines.DailyVerdict` | app/services/analytics_service.py:150-200 | the daily series has a line exactly for the days of the range with such a row of its four types, in order, each with the whole parts of that day's four sums |
| `PublishingSafety.ReadyMeansChannelsExist` | app/services/publishing_service.py:181-217 | no issue means a target, none with an issue, every channel present and connected: the missing-channel branch of publish is unreachable |
| `PublishingReady.ReadyVerdict` | app/services/publishing_service.py:181-217 | no issues if and only if there is a target and each one is on an existing, connected channel of the four providers, with a text that is not blank; on Instagram also assets, all images or videos, none WebP, one with a URL |
| `PublishingReady.FailureVerdict` | app/services/publishing_service.py:194-217 | which issue each target that is not ready gets |
| `PublishingReady.IssuesVerdict` | app/services/publishing_service.py:181-217 | the issues are those of the targets that are not ready, in their order; no target is an issue of its own |
| `PublishingReady.PublishingVerdict` | app/services/publishing_service.py:219-300 | publish does something exactly to an unpublished ready post; it succeeds exactly when a target has credentials and its remote accepts |
| `PublishingReady.PublishedVerdict` | app/services/publishing_service.py:252-308 | every delivery is tried and shows what its remote answered; the post changes in deliveries, status, time and the first id given alone; sent is exactly what was accepted; no other post changes |
| `PublishingSafety.PublishVerdict` | app/services/publishing_service.py:219-308 | publish raises and keeps status, id and time, all tried deliveries failed; or marks the post published with the id of the first delivery accepted and every delivery published-with-time or failed-with-no-id |
| `PublishingService.Service.PublishabilityIssuesOf` | app/services/publishing_service.py:181-217 | the loop collects the issue of every target in order |
| `PublishingService.Service.Publish` | app/services/publishing_service.py:219-308 | post, deliveries and remote log after the call are those of the specification |
| `PublishingService.Service.SendAll` | app/services/publishing_service.py:252-297 | every delivery is tried whatever became of the others; the primary id is the first one accepted |
| `PublishingService.Service.PublishDuePosts` | app/services/publishing_service.py:383-407 | the sweep publishes each due post in order and collects the successes |
| `PublishingService.Service.Reschedule` | app/services/post_service.py:138-145 | only the schedule changes |
| `PublishingService.Service.ReplaceDeliveries` | app/services/post_service.py:81-125 | the loops over old deliveries and selected channels give the specified deliveries with fresh ids |
| `PublishingSafety.StepKeepsInv` | app/services/publishing_service.py:229-301 | every request but an edit that takes the published status back from a post of which something was sent keeps: nothing sent twice, no delivery shared, one delivery per channel, a delivery published exactly when sent, an unpublished post has sent nothing |
| `PublishingSafety.SentAtMostOnce` | app/services/publishing_service.py:229-301 | over every run in which no edit takes the published status back from a post of which something was sent, each delivery is accepted by its remote at most once, every post has one delivery per channel, published exactly when sent, and an unpublished post has sent nothing |
| `PublishingReset.ResetIsHarmlessExactlyWhenUnsent` | app/services/post_service.py:127-136 | after an edit that takes a published status back, no continuation sends anything twice if and only if the post was not sent straight to its channel and none of its deliveries is published |
| `PublishingReset.ResetCanSendAgain` | app/web/calendar.py:489-503 | otherwise editing, choosing channels and publishing again sends a stored delivery, or the post itself, a second time |
| `PublishingReset.ReachableReset` | app/services/post_service.py:127-136 | in every reachable state the hypothesis of the at-most-once result on a reset is the weakest there is |
| `PublishingSafety.FailedDeliveryNeverRetried` | app/services/publishing_service.py:229-231 | a delivery that failed while its post was published elsewhere is never sent in any continuation that takes no published status back |
| `PublishingDue.DuePostsAreDue` | app/services/publishing_service.py:383-397 | the sweep works on exactly the due posts, each once, by schedule |
| `PublishingDue.SweepIsOneByOne` | app/services/publishing_service.py:398-407 | a sweep does to each post what publishing it alone would do |
| `PublishingDue.SweepVerdict` | app/services/publishing_service.py:383-407 | it returns exactly the due posts now published, in order; every other due post is still due; no other post changes |
| `PublishingDue.DueVerdict` | app/services/publishing_service.py:383-397 | due are exactly the posts planned for a time that has come, each once, the earliest first |
| `PublishingChannels.ReplaceVerdict` | app/services/post_service.py:81-125 | for any post: deliveries on exactly the selected channels that had one or exist, and where one shadows another; the one standing for its channel brought up to date, what was published staying published; one that another stands for left alone; a channel that had none gets a fresh unsent one with its override or the content |
| `PublishingChannels.ReplacedAreDistinct` | app/services/post_service.py:81-125 | one delivery per channel stays one delivery per channel |
| `PublishingChannels.OverrideVerdict` | app/services/post_service.py:98 | the text given for a channel counts, stripped, exactly when it is not blank |
| `PublishingService.Service.UpdatePublishedPost` | app/services/publishing_service.py:310-361 | the post after a remote edit is that of the specification, or nothing changed |
| `PublishingService.Service.DeletePublishedPost` | app/services/publishing_service.py:363-381 | the post is removed after its remote post was, or nothing changed |
| `PublishingEdit.ChangeReachesWhatWasPublished` | app/services/publishing_service.py:84-109 | after publishing, a change addresses the one channel published to and the id its remote gave; several deliveries are refused |
| `PublishingEdit.ChangesFollowTheRemote` | app/services/publishing_service.py:310-361 | an edit is accepted remotely first, and later changes address the id the remote then answered |
| `PublishingEdit.DeletionFollowsTheRemote` | app/services/publishing_service.py:363-381 | the post goes exactly when the remote took its single remote post away, and no other post changes |
| `PublishingEdit.EditVerdict` | app/services/publishing_service.py:310-345 | a published post is edited exactly when the new content is not blank and the remote, at the one id it is out under on a connected channel that takes changes, accepts |
| `PublishingEdit.EditedVerdict` | app/services/publishing_service.py:347-361 | an edit writes title when given, content, schedule and a new id, also on a sole delivery, and nothing else |
| `PublishingEdit.EditRefusals` | app/services/publishing_service.py:320-345 | why an edit was refused, in the order the reasons are looked for; nothing changes |
| `PublishingEdit.DeletedVerdict` | app/services/publishing_service.py:363-378 | a published post is deleted exactly when it is out on one channel that takes changes and the remote accepts |
| `PublishingEdit.DeletionRefusals` | app/services/publishing_service.py:363-378 | why a deletion was refused; nothing changes |
| `RemoteSync.AnalyticsSync.ReconcileRemovedRemotePosts` | app/tasks/analytics_sync.py:322-394 | the two loops remove exactly the doomed posts and count each once |
| `RemoteSync.AnalyticsSync.ImportRemotePost` | app/tasks/analytics_sync.py:425-452 | an import happens exactly when a campaign is found or made, and flushes; the flush that making a campaign adds leaves the same tables |
| `RemoteSync.AnalyticsSync.SyncRemotePost` | app/tasks/analytics_sync.py:289-313 | one turn of the loop is the specified step, and says whether it attached |
| `RemoteSync.AnalyticsSync.SyncExternalPostIds` | app/tasks/analytics_sync.py:274-319 | the loop over the listing, with its unflushed assignments, is the specified pass |
| `RemoteSyncVerdicts.OneListedPost` | app/tasks/analytics_sync.py:289-313 | one listed post: with a blank id or one a row has, nothing; else the post that alone among the channel's posts within a day has its content or title gets the id; with none or several it is imported when a campaign is found |
| `RemoteSyncVerdicts.WhoGetsTheId` | app/tasks/analytics_sync.py:397-422 | an existing post gets the id exactly when it alone is alike; every other keeps its own |
| `RemoteSyncVerdicts.AmbiguousIsImported` | app/tasks/analytics_sync.py:419-452 | with two alike neither gets the id, and a published post with the listed content, time and id is added when a campaign is found |
| `RemoteSyncVerdicts.RemovalVerdict` | app/tasks/analytics_sync.py:322-394 | removed are exactly the posts gone remotely, told from status, channel, ids and deliveries, each with its deliveries |
| `RemoteSyncVerdicts.PassVerdict` | app/tasks/analytics_sync.py:274-319 | a pass removes what is gone, takes the listed posts one by one and saves |
| `RemoteSyncLaws.ReconcileVerdict` | app/tasks/analytics_sync.py:322-394 | removed are exactly the published delivery-less posts and the posts of a sole delivery whose nonblank id is unlisted; posts with several deliveries survive; another provider or an empty listing removes nothing |
| `RemoteSyncLaws.ReconcileOnceIsEnough` | app/tasks/analytics_sync.py:322-394 | after a reconciliation nothing more is to be removed |
| `RemoteSyncLaws.SyncChangesOnlyIds` | app/tasks/analytics_sync.py:274-319 | attaching changes nothing of an old post but its id, and that only to a listed one; new posts carry a listed id |
| `RemoteSyncLaws.SyncDoomsNobody` | app/tasks/analytics_sync.py:274-394 | attaching listed ids never makes a post removable |
| `RemoteSyncFixpoint.IdleExactlyWhenHeld` | app/tasks/analytics_sync.py:274-319 | a pass over a settled, reconciled state changes nothing if and only if every listed id is held |
| `RemoteSyncFixpoint.SecondPassIsIdle` | app/tasks/analytics_sync.py:274-452 | when imports are taken and no pick already holds a listed id, one pass makes every listed id held and a second attaches, imports and deletes nothing |
| `RemoteSyncSettling.SettlesExactlyWhenRepaired` | app/tasks/analytics_sync.py:274-452 | when every import finds a campaign, a second pass is idle (and every listed id held after the first) if and only if each takeover of a post from a listed id is repaired: the id is shown elsewhere, or a later step lists it unheld |
| `RemoteSyncSettling.UnambiguousSettles` | app/tasks/analytics_sync.py:274-452 | one pass is enough when no local post matches two listed ones or matches one while carrying another's id, and no listed post matches what an earlier one is imported as |
| `RemoteSyncTwins.TwinsNeverSettle` | app/tasks/analytics_sync.py:397-422 | two listed posts of one text, from empty tables: pass n + 1 changes what pass n left, for every n |
| `RemoteSyncTwins.OneTwinIsUnknown` | app/tasks/analytics_sync.py:397-422 | after every pass exactly one of the two ids is held |
| `Drive.DriveService.UpsertDriveFile` | app/services/drive_service.py:367-404 | an entry updates the asset with its id, keeping size and links it does not give, or creates one; the right counter moves |
| `Drive.DriveService.MarkRemovedAssets` | app/services/drive_service.py:406-424 | exactly the active assets with an unlisted id are marked and counted |
| `Drive.DriveService.SyncFolder` | app/services/drive_service.py:116-161 | the paging loop is the specified sync of all pages' entries, with the specified counts |
| `DriveLaws.SyncVerdict` | app/services/drive_service.py:116-161 | on any table: assets without a Drive id untouched, uniqueness kept, created + updated = entries, missing = the assets that were active and unlisted, every listed id present, status of every asset exactly determined |
| `DriveLaws.ActiveExactlyWhenListed` | app/services/drive_service.py:406-424 | with unique ids an asset with a Drive id is active if and only if it is listed |
| `DriveLaws.SharedIdStaysMissing` | app/services/drive_service.py:377-380 | of two assets sharing a listed id only the first becomes active |
| `DriveFixpoint.FinalTwice` | app/services/drive_service.py:367-404 | going through a listing a second time changes no asset but for its verification time |
| `DriveFixpoint.SecondSyncIsIdle` | app/services/drive_service.py:116-161 | a second sync of the same listing creates 0, marks 0 missing and changes no asset but for its verification time |
| `DriveFiles.DisplayVerdict` | app/services/drive_service.py:458-465 | an asset is shown under its file's name without directories and suffix; under the whole name when there is no suffix; untitled when empty |
| `DriveFiles.LastEntryWins` | app/services/drive_service.py:367-404 | after a sync the asset of a listed id carries what the last entry with that id says |
| `DriveFiles.SingleEntryVerdict` | app/services/drive_service.py:381-404 | of an id listed once: an asset that was there keeps what the entry does not give, one that was not starts from the entry |
| `DriveFiles.UnlistedVerdict` | app/services/drive_service.py:406-424 | an unlisted asset goes missing now if it was active, and is left alone if not |
| `DriveFiles.PagesVerdict` | app/services/drive_service.py:133-155 | the entries are those of the pages, one after the other |
| `Decimal.ParsePrint` | app/services/settings_spec.py:360-370 | every integer printed in decimal is read back |
| `Decimal.ParseVerdict` | app/services/settings_spec.py:331-357 | a text reads as an integer exactly when it is a numeral, with a sign or none, digits with single underscores between, and number spaces around |
| `Decimal.PrintVerdict` | app/services/settings_spec.py:360-370 | a number is stored as the one plain text worth it |
| `SettingsService.DomainSettings.NormalizeSpecSetting` | app/services/settings_api.py:15-58 | validation accepts, folds and rejects as specified, and yields the two columns to store |
| `SettingsService.DomainSettings.UpsertByKey` | app/services/domain_settings.py:91-118 | the row with the key is overwritten field by field, or one is created; (domain, key) stays unique |
| `SettingsService.DomainSettings.GetByKey` | app/services/domain_settings.py:78-89 | a row with the domain and key, the first there is, or not found exactly when there is none |
| `SettingsService.DomainSettings.EnsureByKey` | app/services/domain_settings.py:120-148 | an existing row is left alone, else one is created; (domain, key) stays unique |
| `SettingsService.DomainSettings.Delete` | app/services/domain_settings.py:150-155 | only the active flag is cleared, within the service's domain |
| `SettingsService.DomainSettings.UpsertDomainSetting` | app/services/settings_api.py:91-98 | validation, then upsert |
| `SettingsService.DomainSettings.ResolveValue` | app/services/settings_spec.py:281-318 | the stepwise reading is the specified one |
| `SettingsLaws.AcceptedFits` | app/services/settings_api.py:27-51 | validation lets through only values of the type, allowed and within bounds |
| `SettingsLaws.RoundTrip` | app/services/settings_api.py:91-98 | any accepted value, upserted over any table on either path, is what reading then returns; a refused one changes nothing |
| `SettingsVerdicts.AcceptVerdict` | app/services/settings_api.py:27-51 | validation accepts exactly the value the payload asks for: its text, else its JSON, as a value of the type (the boolean words, integer texts), folded and allowed when restricted, within bounds |
| `SettingsVerdicts.ValueRefused` | app/services/settings_api.py:29-51 | a value that is not allowed, too small or too large is refused as such |
| `SettingsVerdicts.RefusalVerdict` | app/services/settings_api.py:22-28 | no value, and a value that means nothing for the type, are refused as such |
| `SettingsVerdicts.SetExactlyWhen` | app/services/settings_api.py:91-98 | an admissible value is set exactly when its domain has a service and no flag of an existing row would become null |
| `SettingsVerdicts.SetVerdict` | app/services/domain_settings.py:91-118 | the row of the key then has the type, the two columns for the value and the flags due, every other row is as it was, and reading gives the value |
| `SettingsVerdicts.ReadVerdict` | app/services/settings_spec.py:281-318 | any stored row reads as the value it means when the setting may have it, and as the default otherwise, if the specification is sound |
| `SettingsLaws.OthersKeepTheirValue` | app/services/domain_settings.py:91-118 | setting one value moves no other |
| `SettingsLaws.DeletionDoesNotUnset` | app/services/domain_settings.py:150-155 | after a deletion `resolve_value` gives every setting the value it had |
| `SettingsLaws.ReadsWellExactlyWhenSound` | app/services/settings_spec.py:281-318 | reading keeps to type, allowed set and bounds on every stored row if and only if the default does and no JSON setting restricts its values |
| `SettingsTable.EverySettingReadsWell` | app/services/settings_spec.py:24-260 | every setting of the application, over any table, reads as null or as a value its specification allows |

## Left out

- Interleaving of calls inside one operation, and one row referenced from two places: rows are values in a table.
- Admin endpoints that write raw session or credential fields (`Sessions.update`, `UserCredentials.update`): they can break every session law.
- IP addresses, user agents and rehashing on sessions, cookies, and the contents of access tokens; `mfa_setup` and `mfa_confirm`.
- A guard call by API key or by legacy session token (`app/services/auth_dependencies.py:68-121`): only the session check of `require_user_auth` is modelled.
- Redis failures, the fail-open path of the middleware, and limits changed while a window is open.
- `AdSync.AdSyncService.SyncPlatformRows`: after a violated constraint the tables are not described, because the caller rolls back; numbers of a row arrive parsed and date parsing is a parameter.
- Ordering of dashboard lines by spend, and division into rates; `link_to_campaign`.
- `Analytics.AnalyticsService.UpsertMetric`: rounding of a value to six decimals; conversion of totals to floats.
- Metrics of an unknown post id, which `_sync_channel` stores at channel level, and the other metric listings.
- `PublishingSafety.SentAtMostOnce`: an edit that takes the published status back from a post of which something was sent (`app/services/post_service.py:127-136`) is excluded by hypothesis, because the source allows it and it breaks the property, exactly as `PublishingReset` says.
- `PublishingService.Service.Publish`: whether the delivery made up for a post without deliveries is stored; the text, media URLs and title sent: the remote answers by target.
- `RemoteSync.AnalyticsSync.SyncExternalPostIds`: which campaign an import goes into, whether it is new, and the title are parameters; failures to fetch the listing, token refresh and metrics download.
- `Drive.DriveService.SyncFolder`: failing requests; uploads, renames, folder search and deletion of files.
- `SettingsService.DomainSettings.NormalizeSpecSetting`: lower-casing beyond ASCII, digits beyond ASCII, Python's limit of 4300 digits, and fractional numbers in the JSON column; a payload's own domain and key fields, which both paths drop.
- `DomainSettings.update` and `DomainSettings.create`, which write raw rows: reading is proved for any row they could leave.
- Billing, roles and permissions, people, notifications, tasks, campaigns, web pages, file storage, migrations, telemetry and the Celery schedule: separate services or I/O.
