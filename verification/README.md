# Verified models of the TaskFlow protocols

This project models, in Dafny, the small protocols inside the TaskFlow backend and its browser client, and
proves what each of them promises over every run: the sliding-window rate limiter, attachments kept in two
stores with an orphan collector, archiving and purging of operation logs, refresh-token rotation with the
client's single-flight renewal, notification delivery, tenant scoping, the task status audit, and keyword
search.

Each protocol is a state machine over atomic steps (one committed transaction, one Lua script, one file
operation), run in any interleaving with crashes and failures as steps. Beside it stand classes that have the
fields and loops of the source and change them in place; their contracts tie every call to a step or a run of
the machine, or to a function the main results are about.

| module | models |
|---|---|
| `RateLimit` | the Lua script over one sorted set, its wrapper and the fail-open middleware |
| `StorageKeys` | the grammar, generation and resolution of storage keys |
| `AttachmentProtocol` | interleaved uploads, deletes, collectors and crashes over files and rows |
| `Attachments` | the streaming write loop, the attachment services and the collector's loop |
| `LogTables` | batches over the log tables and the archiving job with its two loops |
| `LogProtocol` | overlapping and redelivered archiving workers |
| `AuthTokens` | the refresh-token table and its handlers, one call at a time |
| `AuthInterleaving` | the same handlers with their checks and their writes apart, overlapping freely |
| `ClientSession` | browser and server together: shared refresh and replay |
| `Notifications` | check, insert and mark for one idempotency key, and the worker |
| `TenantScope` | context variable, transaction settings, row-level security, nested switches |
| `TaskAudit` | status transitions and their log |
| `KeywordSearch` | escaping a keyword for a case-insensitive pattern match |
| `Text`, `Wrappers` | stripping of blanks, shared result types and facts about finite sets |

## Where code and documentation part

The models follow the code. In these places it gives less than its comments or a first reading suggest, and
the exact condition is proved instead.

- The collector is safe if and only if commit latency plus snapshot latency stays strictly below the minimum
  age; equality already loses a file (`AttachmentProtocol.TimingThresholdIsExact`).
- Logs are conserved if and only if an archiving transaction stays open for at most half the final retention
  period; otherwise a purged log can come back (`LogProtocol.ConservationThresholdIsExact`).
- The final retention counts from `archived_at`, which is the start of the archiving transaction. By that stamp it
  is kept in every run if and only if an archiving transaction stays open for at most half of it
  (`LogProtocol.StayFromStampIsExact`); counted from the commit that put a row into the archive, if and only if
  archiving transactions take no time at all (`LogProtocol.StayFromCommitIsExact`). Under the first condition it
  falls short by at most the time the transaction was open (`LogProtocol.RetentionIsHonoured`).
- Rotation and logout check a token row and write it later without a lock. One live token per login, single
  redemption and the end of logged-out sessions hold through a whole run if and only if no handler is overtaken
  in between (`AuthInterleaving.TokensAreSafeUnlessOvertaken`).
- A PATCH with an explicit null for title or priority passes validation, contrary to the
  comment at app/schemas/task.py:53-54, and fails on the table's NOT NULL instead (`TaskAudit.TaskService.UpdateTask`).
- The `try` around the client's refresh also covers the replay, so the session lasts if and only if no replay
  fails, for whatever reason (`ClientSession.SessionLastsUnlessAReplayFails`).
- Leaving a nested tenant switch restores the context but not the transaction's settings; the two filters agree
  in every state if and only if each switch is left outside a transaction or towards the same tenant
  (`TenantScope.AlignmentIsExact`). Tenant creation seeds inside an open transaction, so its filters do drift, but it
  commits right after the switch, which brings them back together
  (`TenantScope.TenantCreationSeedsInOpenTransaction`).
- Transitions do not lock the row they read; the audit log replays through a whole run if and only if no handler
  commits over a status it did not read (`TaskAudit.AuditReplayIsExact`). Handlers that run one at a time never do.
- A regular expression that ends in `$` also matches before one final newline, so such keys and suffixes are
  accepted; the results about storage keys hold for them as well.

## Model

| member | source | states |
|---|---|---|
| RateLimit.DecidesAsUnprunedHistory | app/services/rate_limit.py:62-91 | after each call of every run the pruned, expiring set holds exactly the admissions of the last `windowSeconds` seconds, the verdict is "fewer than `limit`" on the history that is never pruned, and an admission alone moves the deadline, to the end of its own window |
| RateLimit.EveryWindowWithinLimit | app/services/rate_limit.py:68-89 | every half-open interval of `1000 * windowSeconds` milliseconds, wherever it starts, holds at most `limit` admissions |
| RateLimit.FailOpenBound | app/core/middleware.py:154-168 | requests forwarded in any `1000 * windowSeconds` milliseconds exceed the limit by at most the checks that failed in them, whether or not their script ran |
| RateLimit.FailedAndForwardedAreExact | app/core/middleware.py:154-168 | the counts in that bound are of the failed checks of the run, and what is forwarded is exactly what was admitted or failed |
| RateLimit.RetryAfterIsExact | app/services/rate_limit.py:74-82 | a rejection's wait lies between 1 and `windowSeconds`; a retry that many seconds (of 1000 ms) later with no admission in between is admitted, one at or before a second less never is |
| RateLimit.WaitOfRejection | app/core/exceptions.py:71-75 | the advertised wait is the time until the window frees, rounded up to whole seconds, and the floor of 1 never changes it |
| RateLimit.NothingAdmittedWhileFull | app/services/rate_limit.py:70-83 | until the oldest admission leaves a full window, no sequence of calls and expiries admits anything |
| RateLimit.FullDecides | app/services/rate_limit.py:74-82 | a full window admits again exactly from the instant its oldest admission leaves |
| RateLimit.FreesAfterOldestsWindow | app/services/rate_limit.py:74-82 | a full window frees exactly `1000 * windowSeconds` milliseconds after its oldest admission was made |
| RateLimit.RetryDecidesByFreeing | app/services/rate_limit.py:74-82 | a later call is rejected before that instant, and admitted from it on if nothing was admitted in between |
| RateLimit.RemainingQuotaIsExact | app/core/middleware.py:185-190 | the remaining quota in the header is exactly how many further requests would be admitted at that instant |
| RateLimit.SameInstantCount | app/services/rate_limit.py:70-91 | calls at one instant fill the window up to the limit and no further |
| RateLimit.AdmittedWhileQuotaLasts | app/services/rate_limit.py:74-91 | a call is admitted exactly while the admissions in its window and the calls since stay below the limit |
| RateLimit.ScriptDecides | app/services/rate_limit.py:65-91 | one call on a refining set decides, records and counts as the full history does |
| RateLimit.ExpiryRefines | app/services/rate_limit.py:88-89 | dropping the key at or after its deadline loses no admission that could still count |
| RateLimit.AdmissionKeepsWindows | app/services/rate_limit.py:74-86 | an admission allowed by the last window keeps every window within the limit |
| RateLimit.RemoveRangeByScore | app/services/rate_limit.py:68 | removing scores from 0 to the window's start leaves exactly the members after it |
| RateLimit.OldestScore | app/services/rate_limit.py:76-79 | the first member by score is a least one |
| RateLimit.RateLimitKey.Eval | app/services/rate_limit.py:57-91 | the commands, in order, leave set and deadline as the script function says, with its reply |
| RateLimit.RateLimitKey.Reclaim | app/services/rate_limit.py:88-89 | dropping the key after its deadline is the expiry event of every run, and whatever history the key stood for it still stands for, with nothing of it left in the window |
| RateLimit.RateLimitKey.Check | app/services/rate_limit.py:129-148 | non-positive settings are refused before Redis is touched; otherwise the script decides, on limit and window as configured, and an allowed call has no wait |
| RateLimit.RateLimitMiddleware.Dispatch | app/core/middleware.py:137-191 | a limited request moves the key as its event does in every run and gets 429 exactly when that event does not forward it; every failure forwards, and the headers are the ones the exact results are about |
| StorageKeys.AcceptedIffLiteral | app/services/storage.py:90-107 | a key is accepted exactly if it consists of the spelled-out characters, with at most one final newline, is relative, and resolves to the root followed by its own segments |
| StorageKeys.CharsetIsSpelled | app/services/storage.py:34 | the key expression accepts exactly non-empty text over letters, digits, dot, slash, underscore and hyphen, or such text and a newline |
| StorageKeys.SegmentRuleIsExact | app/services/storage.py:98-103 | a relative key resolves literally if and only if it has no empty or traversal segment |
| StorageKeys.AcceptedKeysResolveInjectively | app/services/storage.py:163-167 | accepted keys stay strictly below the root, so the second check never fires, and different keys name different files |
| StorageKeys.GeneratedKeyRoundTrip | app/services/storage.py:125-137 | every generated key is accepted, consists of "tenants", the tenant, "tasks", the task and the token with the suffix, and parses back to them; the suffix is stored with upper-case letters lowered, one dot in front, and nothing else changed |
| StorageKeys.KeyIsBuiltIff | app/services/storage.py:125-136 | a key is refused exactly for a non-positive tenant or task, or an extension that is not one to sixteen letters or digits |
| StorageKeys.GeneratedKeysNeverCollide | app/services/storage.py:129-137 | equal keys mean equal tenant, task, token and suffix |
| StorageKeys.TenantDirectoriesAreDisjoint | app/services/storage.py:117-137 | a generated key lies in a tenant's directory exactly if it is that tenant's |
| StorageKeys.GeneratedInOwnDirectory | app/services/storage.py:117-137 | a generated key lies in the directory of the tenant it was generated for and in no other |
| StorageKeys.GeneratedCharset | app/services/storage.py:130-137 | a generated key consists of allowed characters and its file name has no separator |
| StorageKeys.CharsetExcludesBackslash | app/services/storage.py:92-95 | no key over the charset contains a backslash, so that rule refuses nothing more |
| StorageKeys.WalkGrowth | app/services/storage.py:164 | path resolution keeps every segment exactly when none is empty or a traversal |
| StorageKeys.SplitJoin | app/services/storage.py:98 | segments without separators survive joining and splitting |
| StorageKeys.DecimalRoundTrip | app/services/storage.py:137 | the number printed into a key reads back as itself |
| AttachmentProtocol.TimingThresholdIsExact | app/tasks/maintenance_tasks.py:341-367 | no run loses the file of a committed row if and only if commit latency plus snapshot latency is below the minimum age |
| AttachmentProtocol.CollectorSparesLiveFiles | app/tasks/maintenance_tasks.py:349-367 | a collected file's row is not committed and never will be, however the run goes on |
| AttachmentProtocol.CommittedRowsKeepTheirFiles | app/services/attachment.py:331-356 | a committed row lacks its file only after a delete that removed the file and has not committed |
| AttachmentProtocol.RetriedDeleteRemovesBoth | app/services/attachment.py:452-472 | such a delete can be retried in every run, whatever its timing, and the retry removes file and row |
| AttachmentProtocol.CrashedUploadIsCollected | app/tasks/maintenance_tasks.py:311-367 | the file of a crashed upload is removed by any collector that starts once it is old enough |
| AttachmentProtocol.CascadedFilesAreCollected | app/tasks/maintenance_tasks.py:311-367 | so is a file whose row vanished in a cascade |
| AttachmentProtocol.BooksAlwaysHold | app/services/attachment.py:313-356 | in every run, whatever its timing, files, rows and uploads have been created once, and no row is still being uploaded |
| AttachmentProtocol.LateCommitLosesFile | app/tasks/maintenance_tasks.py:341-363 | with any weaker timing there is a run that deletes the file of a committed row |
| AttachmentProtocol.CollectedIsDead | app/tasks/maintenance_tasks.py:349-363 | whatever the collector may take is unreferenced and past its commit deadline |
| AttachmentProtocol.AgeCountsFromLastWrite | app/tasks/maintenance_tasks.py:359-361 | a file's age counts from the last chunk written to it |
| AttachmentProtocol.DeadStaysDead | app/services/attachment.py:317-346 | a file without a row past its commit deadline never gets one |
| AttachmentProtocol.StepKeepsInv | app/services/attachment.py:313-356 | every step of uploads, deletes, collectors and crashes keeps the two stores consistent |
| Attachments.LocalStorageBackend.Save | app/services/storage.py:169-196 | the chunk loop succeeds exactly if the content fits and no read fails; then the file is the content and its length is returned, else the key is absent; other keys are untouched |
| Attachments.LocalStorageBackend.Open | app/services/storage.py:198-204 | an accepted key opens exactly its own bytes; absent and malformed keys are told apart |
| Attachments.LocalStorageBackend.Delete | app/services/storage.py:206-209 | deleting is idempotent and touches one key; a malformed key and a disk failure change nothing |
| Attachments.ReadChunk | app/services/storage.py:183-185 | a read returns the next bytes and is empty only at the end |
| Attachments.AttachmentService.Upload | app/services/attachment.py:304-359 | succeeds exactly if nothing fails and the content is non-empty and fits; then one row points at exactly the uploaded bytes, under a key that parses back to the request's tenant, task, token and lower-cased extension and lies in no other tenant's directory, else no row and no file under the new key; on files and rows it is a run of the protocol that creates, writes any number of chunks, then commits or aborts |
| Attachments.UploadKeyIsInPlace | app/services/attachment.py:311 | a key can be generated exactly for a positive tenant and task and a good extension, and is then in that tenant's directory only |
| Attachments.AttachmentService.OpenAttachment | app/services/attachment.py:391-412 | returns the stored bytes exactly if the row is visible and its file exists; everything else is "not found" |
| Attachments.AttachmentService.DeleteAttachment | app/services/attachment.py:434-472 | file before row: a disk failure keeps both, a failed commit keeps the row alone, each with its own error, and a malformed key does not block the row's removal; for a well-formed key it is a run of the protocol that removes the file, then commits |
| Attachments.UploadIsProtocolRun | app/services/attachment.py:317-356 | whatever an upload leaves, the protocol reaches from any state with the same files and rows |
| Attachments.DeleteIsProtocolRun | app/services/attachment.py:449-472 | the same for a delete, whatever its outcome |
| AttachmentProtocol.ReachesExtendsRun | app/services/attachment.py:317-356 | what is reached from the end of a run is a longer run, so every result about runs applies to uploads and deletes |
| Attachments.Cleanup | app/tasks/maintenance_tasks.py:338-382 | the loop removes exactly the keys its rule selects; skipped counts the listed files that are referenced, deleted and errors together the files that are due, and errors those due whose deletion raises; a negative age is refused |
| Attachments.QuiescentSweepLeaves | app/tasks/maintenance_tasks.py:349-367 | over a quiescent store exactly the referenced, too young, unsafe-keyed and undeletable files remain |
| Attachments.Sweep.FateOf | app/tasks/maintenance_tasks.py:350-367 | deletion is attempted exactly when the protocol's rule says to collect |
| LogTables.LogDatabase.ArchiveOperationLogs | app/tasks/maintenance_tasks.py:230-265 | refuses non-positive settings; else, whatever the batch size and with new logs arriving all the time, it equals a one-shot partition by age, with days of 86400 seconds, and returns exact totals |
| LogTables.OneShotIsByAge | app/tasks/maintenance_tasks.py:237-255 | row by row: a log older than the cutoff leaves main and enters the archive, a younger one stays, an archive row past the final cutoff goes, and the totals count exactly these |
| LogTables.LogDatabase.RunLoops | app/tasks/maintenance_tasks.py:237-255 | the two loops, whatever the batch size and arrivals, leave the one-shot partition |
| LogTables.LogDatabase.ArchiveExpired | app/tasks/maintenance_tasks.py:239-244 | the first loop moves exactly the logs that were expired at its start, unchanged, and counts them |
| LogTables.LogDatabase.PurgeOutlived | app/tasks/maintenance_tasks.py:247-255 | the second loop removes exactly the archived rows that outlived their retention, counts them, and leaves arriving logs in main |
| LogTables.LogDatabase.ArchiveOneBatch | app/tasks/maintenance_tasks.py:112-149 | one transaction archives the selected rows, skipping ids already there, and deletes them |
| LogTables.LogDatabase.PurgeOneBatch | app/tasks/maintenance_tasks.py:170-189 | one transaction deletes the selected archive rows |
| LogTables.PurgeCompletesPartition | app/tasks/maintenance_tasks.py:239-255 | the two loops together make the one-shot partition, and rows just moved are not purged |
| LogTables.BatchProgress | app/tasks/maintenance_tasks.py:113-122 | a batch is empty only if nothing is expired, and otherwise the remaining work shrinks by its size |
| LogTables.PurgeProgress | app/tasks/maintenance_tasks.py:171-184 | the same for purging |
| LogTables.ArrivalsNeverExpire | app/tasks/maintenance_tasks.py:237-244 | logs that arrive while the job runs are never part of its work |
| LogTables.MovedRowsStay | app/tasks/maintenance_tasks.py:246-255 | rows archived by a run are too new for that run's purge |
| LogTables.Smallest | app/tasks/maintenance_tasks.py:117-118 | ordering by id with a limit picks that many least ids |
| LogProtocol.LogsAreConserved | app/tasks/maintenance_tasks.py:112-149 | over crashes, redeliveries and overlapping workers every log is in exactly one of main, archive and purged, unchanged |
| LogProtocol.ConservationThresholdIsExact | app/tasks/maintenance_tasks.py:112-189 | that holds for all runs if and only if twice the longest open archiving transaction fits the final retention |
| LogProtocol.PurgedLogComesBack | app/tasks/maintenance_tasks.py:140-148 | with longer transactions a purged log is archived again |
| LogProtocol.ArchivedRowsNeverChange | app/tasks/maintenance_tasks.py:140-144 | in every run, whatever its timing, an archived row keeps content and first `archived_at` until it is purged |
| LogProtocol.NothingLeavesMainEarly | app/tasks/maintenance_tasks.py:112-149 | in any run, whatever its timing, no log leaves main before it is older than its retention |
| LogProtocol.CrashedWorkIsSelectedAgain | app/tasks/maintenance_tasks.py:112-149 | a crash leaves the tables as they were, and the redelivered job can select again from all that is expired |
| LogProtocol.StayFromStampIsExact | app/tasks/maintenance_tasks.py:170-189 | no run purges a row within the final retention after its `archived_at` if and only if twice the longest open archiving transaction fits that retention |
| LogProtocol.StayFromCommitIsExact | app/models/operation_log_archive.py:70-72 | no run purges a row within the final retention after the commit that archived it if and only if archiving transactions take no time |
| LogProtocol.StepConserves | app/tasks/maintenance_tasks.py:140-148 | every step keeps the books of main, archive and purged |
| AuthTokens.LineageHasOneLiveToken | app/services/auth.py:185-210 | in every run of login, rotation and logout each login's lineage has at most one unrevoked token and each jti is redeemed at most once |
| AuthTokens.RevokedStaysRevoked | app/crud/refresh_token.py:32-39 | `revoked` never reverts |
| AuthTokens.EndedLineageStaysDead | app/services/auth.py:194-210 | a lineage without an unrevoked token never gets one again |
| AuthTokens.RedeemableUntilExpiry | app/services/auth.py:154-210 | a token handed out by login or rotation can be redeemed, however the run goes on, exactly before the expiry it was given, while it is unrevoked and the account active |
| AuthTokens.ClockAndAccountDecide | app/services/auth.py:194-204 | passing time ends a live token exactly at its expiry, and switching the account off or on decides it, with 403 while off |
| AuthTokens.LogoutEndsLineage | app/services/auth.py:228-244 | logging out with a live token ends its lineage |
| AuthTokens.OverlappingRotationsForkTheLineage | app/services/auth.py:185-210 | two rotations that both checked one live token before either wrote fork its lineage |
| AuthInterleaving.TokensAreSafeUnlessOvertaken | app/services/auth.py:185-244 | with overlapping handlers, one live token per lineage, single redemption and the end of logged-out logins hold throughout a run if and only if no handler is overtaken between its checks and its writes |
| AuthInterleaving.OneAtATimeIsNeverOvertaken | app/services/auth.py:185-244 | handlers that run one at a time are never overtaken |
| AuthInterleaving.OvertakenLogoutLeavesASession | app/services/auth.py:237-244 | a logout overtaken by a rotation succeeds and leaves a live token |
| AuthInterleaving.AbortUndoesBegin | app/services/auth.py:185-244 | a handler given up between its checks and its writes leaves no trace |
| AuthInterleaving.StepIsExact | app/services/auth.py:194-244 | a single step keeps the promises, and the invariant behind them, or is overtaken and breaks them |
| AuthTokens.RunKeepsInv | app/services/auth.py:154-244 | every run keeps the lineage invariant, and rows keep user, expiry and lineage |
| AuthTokens.RotateKeepsInv | app/services/auth.py:194-210 | one rotation keeps the lineage invariant |
| AuthTokens.AuthService.RotateTokens | app/services/auth.py:185-210 | the checks in order, with 403 exactly for a disabled account and else 401; a new token exactly for a live, unexpired one of an active account, which is then the only one to stop being live and is recorded as redeemed; the new row is the subject's, unrevoked, with the given expiry |
| AuthTokens.AuthService.IssueTokenPair | app/services/auth.py:154-164 | a login registers one token for that user, unrevoked, with the given expiry, that starts a lineage |
| AuthTokens.AuthService.LogoutUser | app/services/auth.py:228-244 | 403 exactly for another user's live token; the caller's own live token, and no other, stops being live; anything else is silently ignored |
| AuthTokens.AuthService.CreateRefreshToken | app/crud/refresh_token.py:16-24 | exactly one more token is live, and in a lineage without a live token the lineage invariant is kept |
| AuthTokens.AuthService.RevokeRefreshToken | app/crud/refresh_token.py:32-39 | afterwards exactly that token is not live, other rows are as before, a second call changes nothing, and the lineage invariant is kept |
| ClientSession.SessionLastsUnlessAReplayFails | frontend/src/utils/request.ts:200-215 | with refresh replies delivered, one tab and a usable account, the session is dropped in a run exactly if one of its replays fails |
| ClientSession.DroppedExactlyOnFailure | frontend/src/utils/request.ts:200-215 | in every run, benign or not, the session is dropped once for each failing replay and each request that waited behind a lost, refused or token-less refresh, and never otherwise |
| ClientSession.DroppingLeavesNothing | frontend/src/utils/request.ts:206-213 | after such a step both tokens are gone and the request has failed; no other step takes a stored token away |
| ClientSession.FlightSucceedsIffGranted | frontend/src/utils/request.ts:185-206 | a settled refresh has succeeded exactly if the server granted it and the grant arrived |
| ClientSession.AnswerFollowsServer | app/services/auth.py:185-210 | the server answers a refresh with a token exactly if it registers the new one, for the same user |
| ClientSession.RefreshNeverCarriesARevokedToken | frontend/src/utils/request.ts:174-190 | in every benign run, sessions dropped by failing replays included, a posted refresh carries a live token, every refresh is granted, and at rest a stored token is live; there is one as long as no replay has failed |
| ClientSession.OneRefreshAtATime | frontend/src/utils/request.ts:158-208 | in every run at most one refresh is unsettled and each request is sent at most twice |
| ClientSession.RefreshOnlyAfter401 | frontend/src/utils/request.ts:197-205 | a run has a refresh exactly if some first attempt at a token-taking endpoint got a 401 |
| ClientSession.RequestsFollowTheirReplies | frontend/src/utils/request.ts:192-223 | in every run a request is done exactly after a good reply, has failed exactly after an error no refresh mends or a vain wait, and was sent once and once more per replay |
| ClientSession.AuthFreeAsSent | frontend/src/utils/request.ts:197-199 | an endpoint that takes no token is known as one throughout |
| ClientSession.FailingReplayDropsALiveSession | frontend/src/utils/request.ts:202-213 | a run that drops the session although the server holds a live token for it |
| ClientSession.ServeSucceeds | app/services/auth.py:194-210 | a live token in good standing is always traded for a live one |
| ClientSession.OthersLeaveTokenLive | app/services/auth.py:194-244 | no server step that does not present this token revokes it |
| ClientSession.StepKeepsSingleFlight | frontend/src/utils/request.ts:203-205 | every step keeps the unsettled refresh the one in `refreshing` |
| ClientSession.TokensStayTogether | frontend/src/utils/storage.ts:62-72 | in every run the storage holds one pair of tokens or none, never halves of two |
| ClientSession.RequestModule.OnResponse | frontend/src/utils/request.ts:192-223 | the interceptor: finish, join or start the shared refresh, or fail and, for a replay, drop the session |
| ClientSession.RequestModule.RequestNewAccessToken | frontend/src/utils/request.ts:174-184 | the new refresh is the one unsettled refresh if there was none, and it carries a live token if the storage had one |
| ClientSession.RequestModule.OnRefreshReply | frontend/src/utils/request.ts:185-189 | a granted pair replaces the stored one; a refusal leaves storage alone |
| ClientSession.RequestModule.OnFinally | frontend/src/utils/request.ts:203-205 | settling frees the slot for the next refresh |
| ClientSession.RequestModule.AfterRefresh | frontend/src/utils/request.ts:206-214 | a waiting request is replayed once, or fails and drops the session, as its step does in every run |
| ClientSession.RequestModule.SaveTokens | frontend/src/utils/storage.ts:62-66 | a new pair replaces both entries, as handling a granted refresh does in the machine |
| ClientSession.RequestModule.ClearSession | frontend/src/utils/storage.ts:69-72 | both tokens go together, as in the machine's step |
| ClientSession.RequestModule.ServeRefresh | frontend/src/utils/request.ts:180-184 | a posted refresh is one call of the server's rotation |
| Notifications.RowsWithinBound | app/tasks/notification_tasks.py:182-203 | for any schedule the rows of a key are at most 1 plus attempts ended between commit and landed mark, checks failed open, marker expiries and overlapping checks |
| Notifications.SerialRunsPayNoOverlap | app/tasks/notification_tasks.py:189-203 | attempts that follow one another have no overlap to pay for |
| Notifications.DeliveredExactlyOnce | app/tasks/notification_tasks.py:189-211 | a skipped or completed attempt means a row exists, and exactly one if nothing was charged |
| Notifications.NoExpiryWithinTtl | app/tasks/notification_tasks.py:62-64 | redeliveries within seven days, 604800 seconds, of the first landed mark see no expiry |
| Notifications.BoundIsReached | app/tasks/notification_tasks.py:182-203 | for every combination of the four counts some run reaches the bound |
| Notifications.StepKeepsBounded | app/tasks/notification_tasks.py:110-142 | every step keeps rows and passed checks paid for |
| Notifications.AttemptRuns | app/tasks/notification_tasks.py:189-211 | what one attempt does to marker and rows under each failure |
| Notifications.NotificationWorker.CreateNotification | app/tasks/notification_tasks.py:159-211 | refuses exactly the bad arguments; a successful call leaves a row for its key, and all keys stay within the bound |
| Notifications.NotificationWorker.Attempt | app/tasks/notification_tasks.py:189-211 | skip, failure or creation, each with the rows it leaves, in step with the machine |
| Notifications.NotificationWorker.MarkDone | app/tasks/notification_tasks.py:110-128 | sets the marker as the machine does: an existing one keeps its deadline, a failure and other keys change nothing |
| Notifications.NotificationWorker.AlreadyDoneFor | app/tasks/notification_tasks.py:131-142 | fails open; a positive answer means a row for the key exists, and the answer is the machine's |
| Notifications.NotificationWorker.InsertNotification | app/tasks/notification_tasks.py:91-105 | one more row for that key and none for any other; the new id finds the row and earlier ids keep theirs |
| Text.StripRemovesOuterSpace | app/tasks/notification_tasks.py:200 | stripping removes only blanks, and only at the ends |
| Text.StripEmptyIffBlank | app/services/task.py:176-177 | stripping leaves nothing exactly of blank text |
| TenantScope.NonInterference | app/core/tenant_context.py:126-199 | on two databases that agree on the tenants in scope, every adaptive handler gets the same replies after authentication |
| TenantScope.NoOtherTenantsRowChanges | app/core/tenant_context.py:183-225 | no authenticated request changes a row outside its scope, rollbacks included |
| TenantScope.AlignmentIsExact | app/services/rbac_seed.py:49-77 | ORM filter and row-level security name the same tenant throughout a request if and only if every switch is left safely |
| TenantScope.NestedSwitchLeavesFiltersApart | app/services/rbac_seed.py:53-77 | a switch entered and left inside one transaction leaves the filters apart; the next query sees nothing and the next insert is refused |
| TenantScope.AlignedQueryIsExact | app/core/tenant_context.py:159-180 | an aligned query returns exactly the tenant's rows, and a load finds exactly those |
| TenantScope.AlignedWriteIsExact | app/core/tenant_context.py:126-143 | an aligned insert, update or delete succeeds exactly within the context's tenant, and unassigned rows are stamped with it |
| TenantScope.NoContextReachesEverything | app/core/tenant_context.py:183-199 | without a context, as in login and background jobs, a query returns the whole table, a load finds every row, every write succeeds, and an unassigned row goes to the default tenant |
| TenantScope.FailedTransactionIsInert | app/core/tenant_context.py:183-199 | after a failed statement nothing takes effect until the transaction ends, which undoes all of it, by commit or rollback |
| TenantScope.SeedThenCommit | app/services/rbac_seed.py:49-77 | a switch followed by a commit runs aligned on its tenant, touches only it, lasts as a whole or not at all, and leaves the request aligned where it was, also when entered inside a transaction |
| TenantScope.TenantCreationSeedsInOpenTransaction | app/services/tenant.py:48-50 | the same for tenant creation, whose switch is entered in the transaction that refreshing the new row opened |
| TenantScope.RegistrationStaysInDefaultTenant | app/services/auth.py:93-122 | registration's statements run aligned on the default tenant and, committed or rolled back, leave no context or transaction |
| TenantScope.FailedRegistrationStaysConfined | app/services/auth.py:95-122 | when the default role is missing the context is reset with the transaction open; no sequence of later statements reaches another tenant, and closing the session undoes everything |
| TenantScope.StaysAlike | app/core/tenant_context.py:126-199 | one operation cannot tell two databases apart that agree on its scope |
| TenantScope.StaysUntouched | app/core/tenant_context.py:183-199 | one operation changes nothing outside its scope, now or after a rollback |
| TenantScope.StepAlignment | app/core/tenant_context.py:73-80 | an aligned request stays aligned exactly if the operation is not an unsafe exit |
| TenantScope.RequestSession.GetCurrentUser | app/core/deps.py:81-90 | looks the user up without a context, as a load in the machine; unknown users and disabled accounts are refused before any context is set, and else both filters are on that user's tenant |
| TenantScope.RequestSession.BeginIfNeeded | app/core/tenant_context.py:183-199 | a new transaction gets the context's tenant, or the bypass without one; an open one is left alone |
| TenantScope.RequestSession.EnforceTenantGuc | app/core/tenant_context.py:202-225 | rewrites the open transaction's settings to the context's tenant |
| TenantScope.RequestSession.Select | app/core/tenant_context.py:146-180 | returns the rows that pass both filters, as the machine's query: the whole table without a context, the tenant's rows in an aligned one |
| TenantScope.RequestSession.LoadRow | app/core/tenant_context.py:183-199 | a row is found by id exactly if the machine's load finds it |
| TenantScope.RequestSession.Flush | app/core/tenant_context.py:126-143 | stamps unassigned objects with the context's tenant; the policy's check decides |
| TenantScope.RequestSession.SeedTenantRbac | app/services/rbac_seed.py:39-77 | both default roles exist in the tenant afterwards, only roles it did not have were added and each once, nothing else changed, and only the context is restored |
| TenantScope.RequestSession.EnsureRole | app/services/rbac_seed.py:59-68 | a role is created exactly if the tenant has none of that name |
| TaskAudit.AuditReplayIsExact | app/services/task.py:315-329 | through a whole run every task's log replays to its status if and only if no handler commits over a status it did not read |
| TaskAudit.FreshCommitsKeepLogsShort | app/services/task.py:315-329 | without stale commits a task's entries form a path in the graph from TODO to the stored status, of at most three entries |
| TaskAudit.AtomicHandlersKeepTheAudit | app/services/task.py:315-329 | so they do with atomic handlers |
| TaskAudit.OverlappingHandlersForkTheLog | app/services/task.py:315-329 | two overlapping handlers that both read TODO fork the log |
| TaskAudit.CommitAudited | app/services/task.py:318-328 | a commit keeps all logs replayable exactly if it is not stale |
| TaskAudit.PathLength | app/services/state_machine.py:23-29 | a path ending in a status that is not CANCELLED has passed every earlier status once; none is longer than three |
| TaskAudit.TerminalIsFinal | app/services/state_machine.py:32-34 | no replayable log continues after DONE or CANCELLED |
| TaskAudit.OneAtATimeIsCurrent | app/services/task.py:315-329 | handlers that run one at a time never commit stale |
| TaskAudit.AbortUndoesBegin | app/services/task.py:315-329 | a transition given up before its commit leaves no trace |
| TaskAudit.TaskService.TransitionTask | app/services/task.py:315-329 | 404 and 409 exactly when the source gives them; else status and log entry change together, as one commit of the machine, and every log stays replayable and short |
| TaskAudit.TaskService.CreateTask | app/services/task.py:118-134 | a new task starts in TODO with an empty log, as the machine's step |
| TaskAudit.TaskService.UpdateTask | app/services/task.py:209-215 | present fields get their value or are cleared, absent ones and the status stay, and a null in a NOT NULL column changes nothing |
| TaskAudit.TaskService.DeleteTask | app/services/task.py:220-228 | 404 before 403; the log stays, as in the machine's step |
| KeywordSearch.SearchIsSubstring | app/services/task.py:176-183 | for every keyword and title, the filter keeps the title exactly if it contains the stripped keyword up to case, or the keyword is missing or blank |
| KeywordSearch.WrappedMatchIsSubstring | app/crud/task.py:78-79 | an escaped keyword between `%` matches exactly the texts that contain it |
| KeywordSearch.PercentSkips | app/crud/task.py:78-79 | a leading `%` skips any number of characters |
| KeywordSearch.ReplacementsAreOnePass | app/services/task.py:178-180 | the three successive replacements equal one escaping pass |
| KeywordSearch.EscapedPrefix | app/services/task.py:178-181 | an escaped keyword followed by `%` matches exactly the texts that start with it |
| KeywordSearch.FoldEscape | app/crud/task.py:79 | case folding and escaping commute |
| KeywordSearch.UnescapedWildcardsMatchAnything | app/services/task.py:178-180 | why escaping is needed: a bare `_` would be found in every title but the empty one, a bare `%` in all |
| KeywordSearch.ClauseIsWellFormed | app/services/task.py:178-181 | no keyword yields a pattern the database rejects |

## Left out

Assumptions of the models:

- The Redis clock and the database clock never go back, and limit and window of a key do not change while it is in use.
- uuids, tokens, jtis and ids from sequences never repeat; members of the rate limiter's set are distinct.
- Commits are unambiguous: a commit reported as failed did not happen.
- In `AuthTokens` and in the server of `ClientSession` login, rotation and logout handlers are atomic; `AuthInterleaving` drops that.
- Writes to the browser's local storage do not fail.
- An upload or delete taken as one call happens at one clock reading; `AttachmentProtocol` has no such limit.
- Storage is a flat map from key to bytes and modification time: no symbolic links, no directories and no removal of empty ones.
- Removing the file after a failed upload succeeds; a disk that fails twice in a row leaves an orphan to the collector.
- Scores, clocks and modification times are whole numbers of their unit.
- Case folding maps single characters, fixes the three pattern characters and maps nothing else onto them.

Not modelled:

- ClientSession.SessionLastsUnlessAReplayFails: logging out, lost refresh replies and a second tab are outside the benign runs it speaks about; single flight and the two sends hold with them too.
- TenantScope.NonInterference: unique constraints across tenants and the id sequence itself can carry information between tenants and are not part of the table model.
- `bypass_tenant_scope`: entered inside a transaction it does not rewrite that transaction's settings, and no code uses it.
- `register_user` beyond its context switch: uniqueness of names, password hashing and the conflict answer.
- The permission bindings that seeding adds to a new role; they belong to no tenant.
- `sanitize_filename` and `resolve_content_type`: the extension they yield, or a refusal, is an input of `Upload`.
- The membership checks behind "visible" and "manager", which are inputs of the services.
- Signatures, expiry claims and encoding of tokens: a presented token is what it decodes to, or nothing.
- User-visible toasts and redirects, and what an access token grants: any request may get a 401 at any time.
- Automatic retry and backoff of the workers: a retry is one more attempt or run at any time.
- The other filters, paging and order of the task list.
- Task assignees and the notifications that transitions dispatch.
- HTTP routing, schemas, views, logging, metrics, health probes, overview counts, team and role management, and migrations.
