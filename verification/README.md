# Relays: a verified model of its delivery engine

Relays accepts notifications over an API, stores them in PostgreSQL, hands them to stateless
workers through a queue, and retries temporary failures from a scheduler. This project models the
parts of it whose correctness depends on how several of them interact, and proves what they keep.

`dafny verify dfyconfig.toml` checks everything.

## What is modelled

**The delivery engine.** `Notifications` holds the rows, the append-only attempt log, the
constraints and one method per SQL statement. `Delivery` is the persist transaction: as a function
of the tables, and statement by statement with its rollback. `Claims` is the scheduler's claim.
`Protocol` puts them together as a state machine whose steps are the points at which handlers,
workers, schedulers, the queue and the clock can interleave. Its runs are arbitrary sequences of
steps: a worker may hold a stale row, a transaction may begin long before its statements run, a
message may be duplicated or lost, a handler, worker or scheduler may die, and a scheduler may find
any set of rows locked. A step that cannot happen changes nothing, so no theorem assumes that a run
is well formed. `ProtocolSafety`, `Carriers`, `RetryHistory` and `Bookkeeping` prove what holds over
every run. `Workflows` writes the API handler, the delivery task and the scheduler task as the
sequential programs they are, and proves each, run without interruption, equal to one schedule of
protocol steps. `RetryPolicy` is the backoff arithmetic, `FakeProvider` the scripted test provider.

**Idempotent submission.** `Submission` has the keyed insert-or-read transaction and proves that,
over any sequence of requests, it answers as a stable function of the key.

**Rate limiting.** `SlidingWindow` proves that the pruned and expiring sorted set decides like a
limiter that never forgets, with the key's deadline set by EXPIRE as the code sets it.
`KeyLifetime` lets the key expire between any two commands of a request and says exactly which
expiries break that. `OtpLimiter` stacks three limiters for every flow and email on one server,
where requests of different subjects overlap freely. `ConcurrentLimiter` lets the Redis commands of
concurrent requests on one key interleave and gives the exact overshoot.

**Accounts and schema.** `LoginOtp` and `Sessions` interleave the login-code and refresh-token
workflows with lookup and UPDATE as separate steps. `Slug` compares the `slugify` pipeline with a
plain description of its result. `Migrations` crashes and restarts the migration loop.

Throughout, there is one clock that never runs backwards; drawn identifiers, codes and tokens are
fresh; and hashes are injective. The writes of a transaction are one atomic step, where its first
write locks the row it is about; `now()` in them is the time the transaction began, which is a
separate step for a persist and, elsewhere, any earlier clock reading that could have been it. The
history in the protocol's state, and the logs of events, writes and redeemed tokens in `LoginOtp` and
`Sessions`, are there to state properties with: no step reads them.

## Where the code and its documentation part

- `processing` is written only by the claim (`app/modules/notifications/db/notification_queries.py:204`).
  A first delivery therefore runs from `created` or `queued`, not from `processing` as the life cycle
  in `docs/DATA_MODEL.md` draws it.
- `docs/WORKERS.md:526` says that permanent failures are terminal. `mark_failed` and
  `schedule_retry` have no state guard, so a stale worker can still move `failed` to `sent` or
  `queued`: `ProtocolSafety.FailedStaleWorkerReachable` is a run that gets there, and
  `ProtocolSafety.FailedIsAbsorbingIff` says exactly when `failed` is final.
- `docs/RETRY_ENGINE.md:242` calls the retry policy deterministic; the code draws full jitter, so
  the delay is bounded here, not determined.
- `docs/AUTH.md:1679` gives a cooldown of 60 seconds; the constant is 30.
- `updated_at` and `last_attempt_at` can go back, since `now()` is the time a transaction began: a
  delivery that begins before `mark_queued` and commits after it leaves `updated_at` before
  `queued_at`. `Bookkeeping.TimesGoBackIff` and `Bookkeeping.TimesGoBackWithoutDuplicatesIff` say exactly when.
- `docs/AUTH.md:1034` says that a new login code invalidates the previous one, and `docs/AUTH.md:1820` that
  a code is valid for one authentication. `consume_login_otp` names the user, not the code, so a login that
  has checked a code consumes whatever row is there by then. What stands in its way is only the CHECK that
  `consumed_at`, the time the login began, is not before `created_at`. `LoginOtp.CodeServesOneLogin` proves
  the promise while every code is stamped later than the logins of its user under way;
  `LoginOtp.OneCodeServesTwoReachable` and `LoginOtp.ReplacedCodeLogsInReachable` break it at one reading of
  the clock.
- `docs/AUTH.md:1826` says that a successful refresh invalidates the token. It no longer finds a session, but
  a second refresh that had looked it up before still commits: `Sessions.TokenRedeemedTwiceReachable` and
  `Sessions.RedemptionIsFirstIff`.
- The limiter's comment (`app/infra/redis/rate_limiting/limiter.py:51-52`) counts on the key outliving its
  entries. The deadline of an earlier request can pass between ZADD and EXPIRE and take the new entry with it:
  `KeyLifetime.LostEntryOvershootsReachable`.
- The migration loop skips for good a file whose version is below one that sorts before it;
  `Migrations.AllAppliedIffIncreasing` says exactly when nothing is skipped.

## Model

| member | source | states |
|---|---|---|
| ProtocolSafety.LogAndRowAgree | app/modules/notifications/workflows/notification_delivery.py:43-109 | In every reachable state a notification's attempts are numbered 1..attempt_count, its state and retry time are what its log replays to, and its successes are a suffix of the log |
| ProtocolSafety.SentIffLoggedSuccess | app/modules/notifications/db/notification_queries.py:99-113 | In every reachable state a notification is sent if and only if its log holds a success |
| ProtocolSafety.FailedRowKeepsItsReason | app/modules/notifications/workflows/notification_delivery.py:75-91 | In every reachable state a failed notification's last_error is the message of its last logged attempt, or the stock text for a permanent or a temporary failure that gave none |
| ProtocolSafety.PersistAbortsIff | app/infra/db/schemas/02-constraints/notifications/notifications.sql:7-12 | From any reachable state a persist transaction aborts if and only if the attempts are used up or the row is sent and the outcome is no success; only terminal rows, only those two CHECKs, and no effect |
| ProtocolSafety.ClaimAndMarkNeverAbort | app/infra/db/schemas/02-constraints/notifications/notifications.sql:66-70 | Neither a claim nor mark_queued ever breaks a CHECK in a reachable state, whenever its transaction began |
| ProtocolSafety.SentIsAbsorbing | app/infra/db/schemas/02-constraints/notifications/notifications.sql:61-64 | Once sent, sent after any further steps, although mark_failed and schedule_retry do not guard it |
| ProtocolSafety.FailedIsAbsorbingIff | app/modules/notifications/db/notification_queries.py:99-184 | A failed notification stays failed under every continuation if and only if its attempts are used up or no worker holds it |
| ProtocolSafety.FailedStaleWorkerReachable | app/modules/notifications/db/notification_queries.py:116-139 | A concrete run with one duplicated message leaves a failed notification with attempts to spare and a stale worker |
| ProtocolSafety.StepKeepsRowInv | app/modules/notifications/db/notification_queries.py:82-209 | Every step of every component keeps the agreement of row, log and held snapshots |
| Protocol.PersistEffect | app/modules/notifications/workflows/notification_delivery.py:43-109 | The whole effect of a persist transaction on a row that agrees with its log, last_error and retry time included, or the constraint that aborts it |
| Protocol.NextNumberIsUnique | app/infra/db/schemas/02-constraints/notifications/delivery_attempts.sql:7-8 | When the log holds numbers 1..n, inserting number n+1 never breaks the UNIQUE constraint |
| Carriers.StepMovesCarrier | app/modules/notifications/workflows/notification_delivery.py:112-140 | One step that loses nothing leaves a live notification a carrier; one that duplicates nothing gives it no second, and a terminal one none |
| Carriers.NeverStranded | app/modules/notifications/api/v1/routes.py:86-111 | With nothing lost, every notification that is not terminal has a handler, message, worker, retry time or claimed batch that carries it |
| Carriers.NeverCarriedTwice | app/infra/workers/tasks.py:19-26 | With nothing duplicated it has at most one carrier, and none once terminal |
| Carriers.ExactlyOneCarrier | app/modules/notifications/workflows/notification_delivery.py:112-140 | With neither loss nor duplication it has exactly one carrier until terminal and none after |
| Carriers.NoMessageIsRejected | app/modules/notifications/workflows/notification_delivery.py:28-40 | With nothing duplicated every message names a stored row that passes the eligibility check |
| Carriers.NoPersistAborts | app/modules/notifications/workflows/notification_delivery.py:49-109 | With nothing duplicated every persist transaction commits |
| Carriers.TerminalIsFinal | app/modules/notifications/workflows/notification_delivery.py:28-35 | With nothing duplicated a row that is sent or failed never changes again, in any column |
| RetryHistory.ClaimsAreBounded | app/modules/notifications/db/notification_queries.py:167-214 | Claims plus pending retry never exceed the temporary failures below max_attempts, hence max_attempts - 1; between two claims a retry was scheduled |
| RetryHistory.TotalWaitIsBounded | app/modules/notifications/workflows/notification_delivery.py:82-102 | In any run the delays one notification draws add up to at most the capped delays of attempts 1..max_attempts-1, in closed form |
| RetryHistory.HistoryInvHolds | app/modules/notifications/db/notification_queries.py:167-209 | In every reachable state each claim directly follows a scheduled retry and the drawn delays fit the attempts made |
| RetryHistory.ClaimsAreSeparated | app/modules/notifications/db/notification_queries.py:202-206 | Where each claim follows a scheduled retry, any two claims have one between them |
| RetryHistory.ProcessingOnlyWhenDue | app/modules/notifications/db/notification_queries.py:189-209 | From any reachable state a step turns a row to processing only as a claim of a queued row whose retry time is not after the claim's BEGIN, and writes nothing else to it |
| RetryHistory.ClaimLeavesOnlyWaitingRows | app/modules/notifications/db/notification_queries.py:189-201 | A claim that takes anything with room in its limit leaves behind only rows that are locked, not queued, without a retry time, or to be retried later |
| RetryHistory.RetryOnlyAsDrawn | app/modules/notifications/workflows/notification_delivery.py:93-102 | From any reachable state a row gets a retry time only by a committed temporary failure, and it is that attempt's clock reading plus the seconds it drew |
| RetryHistory.DelaysAreWaitedFor | app/modules/notifications/db/notification_queries.py:192-195 | In every run no claim begins before the clock reading of the attempt that scheduled it plus the delay that attempt drew |
| RetryHistory.SchedulesAreDistinct | app/modules/notifications/workflows/notification_delivery.py:84-102 | In every run the retries of a notification come from distinct attempts, in order, below max_attempts, each with a delay of at most base * 2^(n-1) seconds and the cap |
| Bookkeeping.RowsAreBookkept | app/modules/notifications/db/notification_queries.py:82-209 | In every reachable state no timestamp is before creation or ahead of the clock, the last attempt is no later than the last update, a row has a last attempt exactly when it has attempts, was sent at its last attempt, failed with a non-empty reason, and has at most its attempt's capped delay left to wait |
| Bookkeeping.RowsOnlyAdvance | app/modules/notifications/db/notification_queries.py:82-209 | Over any further steps a row keeps its creation time, maximum and first queueing time, and its attempt count never goes back |
| Bookkeeping.TimesGoBackIff | app/modules/notifications/workflows/notification_delivery.py:49-102 | From any reachable state a step moves updated_at or last_attempt_at back if and only if it commits a persist whose transaction began before that time |
| Bookkeeping.TimesGoBackWithoutDuplicatesIff | app/modules/notifications/api/v1/routes.py:98-111 | With nothing duplicated last_attempt_at never goes back, and updated_at does if and only if a persist commits that began before mark_queued did |
| Bookkeeping.UpdatedGoesBackReachable | app/modules/notifications/db/notification_queries.py:82-93 | A run with nothing lost or duplicated in which updated_at goes back, to before queued_at |
| Bookkeeping.LastAttemptGoesBackReachable | app/modules/notifications/db/notification_queries.py:142-154 | A run with one duplicated message in which last_attempt_at goes back |
| Bookkeeping.AttemptBookkept | app/modules/notifications/workflows/notification_delivery.py:51-102 | What a committed attempt writes to a row in order leaves it in order, stamped with the time its transaction began, however late it commits |
| RetryPolicy.CappedDelayMonotone | app/modules/notifications/retry/policy.py:22-25 | The capped delay never shrinks from one attempt to a later one and never passes the cap |
| RetryPolicy.SaturationIndexExists | app/modules/notifications/retry/policy.py:22-25 | There is exactly one last attempt whose delay the cap does not cut |
| RetryPolicy.TotalDelayClosedForm | app/modules/notifications/retry/policy.py:22-25 | The sum of the first n capped delays is base*(2^k - 1) + (n-k)*cap for the saturation index k |
| RetryPolicy.NextRetryTime | app/modules/notifications/retry/policy.py:7-28 | An error if and only if the attempt number is below 1; otherwise a time between now and now plus the cap |
| Delivery.RunStatements | app/modules/notifications/workflows/notification_delivery.py:51-109 | The statements in order reach the transaction's result, or its error |
| Delivery.PersistDeliveryResult | app/modules/notifications/workflows/notification_delivery.py:43-109 | In place: a commit counts and logs the attempt, stamps the row and makes it sent, failed with the provider's message or the stock text, or queued for the drawn time; an abort leaves both tables as they were |
| Notifications.StorableRows | app/infra/db/schemas/02-constraints/notifications/notifications.sql:7-70 | What the CHECKs on a row's progress amount to, written out |
| Notifications.Database.Update | app/infra/db/schemas/02-constraints/notifications/notifications.sql:7-70 | An UPDATE takes effect if and only if every CHECK holds of the new row, and reports the first that fails |
| Notifications.Database.CreateNotification | app/modules/notifications/db/notification_queries.py:4-50 | Inserts a created row with the column defaults |
| Notifications.Database.MarkQueued | app/modules/notifications/db/notification_queries.py:82-96 | Moves a created row to queued and leaves every other row alone |
| Notifications.Database.IncrementAttemptCount | app/modules/notifications/db/notification_queries.py:142-164 | Counts one attempt, or fails on a missing row or a broken CHECK without effect |
| Notifications.Database.MarkSent | app/modules/notifications/db/notification_queries.py:99-113 | Moves any row to sent, whatever its state, if the CHECKs allow |
| Notifications.Database.MarkFailed | app/modules/notifications/db/notification_queries.py:116-139 | Moves any row to failed, whatever its state, if the CHECKs allow |
| Notifications.Database.ScheduleRetry | app/modules/notifications/db/notification_queries.py:167-184 | Moves any row to queued with a retry time, whatever its state, if the CHECKs allow |
| Notifications.Database.RecordDeliveryAttempt | app/infra/db/schemas/02-constraints/notifications/delivery_attempts.sql:1-11 | Appends the attempt if and only if its number is positive and new for its notification and the notification exists; names the constraint otherwise |
| Claims.Select | app/modules/notifications/db/notification_queries.py:189-201 | Takes only due, unlocked rows, as many as the limit allows, and leaves none behind that precedes a taken one |
| Claims.ClaimRetryable | app/modules/notifications/db/notification_queries.py:187-214 | Takes only queued, unlocked rows whose retry time has passed, by retry time and creation time up to the limit, leaves none that it had room for, and makes them processing without a retry time; or aborts on a broken CHECK without effect |
| Claims.ClaimUntilNoneDue | app/infra/workers/celery.py:29-37 | Repeating the claim at a fixed time ends, drains, never aborts, and leaves no queued row whose retry time has passed |
| Claims.DrainTakesEachDueRow | app/modules/notifications/workflows/retry_scheduler.py:7-20 | A drain takes exactly the queued rows whose retry time has passed, in ceil(n/limit) non-empty rounds, and leaves all others unchanged |
| Claims.DrainRoundsAreOrdered | app/modules/notifications/db/notification_queries.py:196-199 | No row is taken twice, and no row of a later round has an earlier retry time, or the same one and an earlier creation time, than one of an earlier round |
| Workflows.CreateNotify | app/modules/notifications/api/v1/routes.py:86-111 | The handler answers as the submission does; a new request ends with its row queued and one message, as the schedule submit, enqueue, mark queued; any other answer changes no row and enqueues nothing |
| Workflows.EnqueueNew | app/modules/notifications/api/v1/routes.py:98-111 | The handler's part after a new request is accepted is that schedule |
| Workflows.DeliverNotification | app/modules/notifications/workflows/notification_delivery.py:112-140 | The delivery task is the schedule load, begin, persist, and leaves nothing else under way; it asks the provider if and only if the row is neither sent nor failed and has an attempt left, and then persists the answer |
| Workflows.RetrySchedulerTask | app/infra/workers/tasks.py:18-28 | The scheduler task is the schedule of one claim followed by one enqueue per claimed row, in some order |
| Workflows.EnqueueAll | app/infra/workers/tasks.py:22-26 | The enqueue loop puts one message per claimed row on the queue |
| Workflows.LiveDelivery | app/modules/notifications/workflows/notification_delivery.py:28-109 | Delivering a live row commits and leaves it sent, failed or waiting for a later retry, one attempt further |
| Workflows.RunWithFakeProvider | app/modules/notifications/providers/email/fake/provider.py:35-69 | Delivering and claiming in turn under a script always ends; it ends terminal with min(max_attempts, j+1) attempts and sent exactly when j < max_attempts and the script ends at j or says success there, or stranded at j when that entry raises |
| FakeProvider.Provider.Send | app/modules/notifications/providers/email/fake/provider.py:24-78 | Answers the entry at the attempt count, success past the end, and raises when unconfigured or scripted to |
| FakeProvider.DecisiveIndex | app/modules/notifications/providers/email/fake/provider.py:35-42 | The first entry of a script that is not a temporary failure, or its end |
| FakeProvider.ScriptDecidesOutcome | app/modules/notifications/providers/email/fake/provider.py:35-69 | In every interleaving without duplication, a notification that became terminal did so at attempt min(max_attempts, j+1), sent exactly when j < max_attempts and the script ends at j or says success there |
| FakeProvider.ScriptInvHolds | app/modules/notifications/providers/email/fake/provider.py:35-42 | In every such interleaving the log reads off the script and every held snapshot is current |
| Submission.SubmissionDatabase.SubmitNotification | app/modules/notifications/workflows/notification_submission.py:48-157 | The transaction in place leaves the tables and gives the answer that Submit says; from any tables at all, a taken key is answered by its record alone, and only a new request changes them |
| Submission.SubmissionDatabase.InsertIdemKeys | app/core/idempotency.py:1-31 | Inserts a processing record under a fresh key and does nothing under a taken one |
| Submission.Completing | app/core/idempotency.py:58-70 | Completes the record with that id, keeping its hash, and changes no other |
| Submission.SubmissionDatabase.CreateNotification | app/infra/db/schemas/02-constraints/notifications/notifications.sql:27-28 | Inserts a notification under a fresh id, unless the recipient is empty |
| Submission.FirstAccepted | app/modules/notifications/workflows/notification_submission.py:55-94 | The first request under a key that the tables accept |
| Submission.KeysAgree | app/infra/db/schemas/01-tables/idempotency/idempotency_keys.sql:1-15 | After any requests a key is recorded exactly when one of its requests was acceptable, completed, with that first request's hash, and its notification holds that request under the address or URL its channel names |
| Submission.AnswerIsStable | app/modules/notifications/workflows/notification_submission.py:33-157 | Every answer read off the requests alone, channel by channel: new exactly once per key for a non-empty address, refused for an empty one or an unsupported channel, same id for the same request, conflict for another; the three internal-error answers never occur |
| Submission.OnlyNewRequestsChangeTables | app/modules/notifications/workflows/notification_submission.py:33-157 | A new request adds its completed record and, under a fresh id, its notification with the address or URL its channel names, and changes no other entry; any other answer leaves both tables unchanged |
| Submission.OneNotificationPerKey | app/modules/notifications/workflows/notification_submission.py:76-94 | After any requests there are as many notifications as recorded keys |
| Submission.EnqueuedAtMostOnce | app/modules/notifications/api/v1/routes.py:100-105 | No two requests answered as new share a key or a notification, so none is enqueued twice |
| SlidingWindow.RedisServer.ZRemRangeByScore | app/infra/redis/rate_limiting/limiter.py:26-31 | Prunes the set under one key, dropping an emptied one with its deadline, and leaves every other key alone |
| SlidingWindow.RedisServer.ZCount | app/infra/redis/rate_limiting/limiter.py:33-37 | Counts the entries from the window start on |
| SlidingWindow.RedisServer.ZAdd | app/infra/redis/rate_limiting/limiter.py:42-49 | Adds one entry under one key, keeping its deadline, and leaves every other key alone |
| SlidingWindow.RedisServer.Expire | app/infra/redis/rate_limiting/limiter.py:51-56 | Renews the deadline of a set that is there, and leaves every other key alone |
| SlidingWindow.RedisServer.SlidingWindowLimiter | app/infra/redis/rate_limiting/limiter.py:7-58 | Prune, count, add and expire in place decide and leave what Decide says, under one key only |
| SlidingWindow.PrunedSetDecidesLikeFullHistory | app/infra/redis/rate_limiting/limiter.py:23-58 | For any calls in clock order, and deadlines that pass at any time between them, each decision equals that of a limiter over the full history |
| SlidingWindow.DecisionCounts | app/infra/redis/rate_limiting/limiter.py:23-58 | A call is allowed if and only if fewer than limit admissions lie within the window ending with its clock reading; the set then holds that window and the reading, and its key lives a window from the server's clock |
| SlidingWindow.CountWithinIs | app/infra/redis/rate_limiting/limiter.py:33-37 | The count of a half-open interval is the number of entries in it, at either closed end |
| SlidingWindow.StaysFaithful | app/infra/redis/rate_limiting/limiter.py:51-56 | After any such calls and expiries the stored set and the full history agree on every window a later call can ask about, and the deadline EXPIRE set is past the window of every admission |
| SlidingWindow.AdmissionsAreSpaced | app/infra/redis/rate_limiting/limiter.py:39-49 | Any two admissions `limit` apart in the sequence are a whole window apart in time |
| SlidingWindow.WindowIsSafe | app/infra/redis/rate_limiting/limiter.py:39-49 | Every half-open interval of window length, closed at either end, holds at most `limit` admissions |
| SlidingWindow.SpacedCount | app/infra/redis/rate_limiting/limiter.py:39-49 | Admissions so spaced never number more than `limit` in a window |
| OtpLimiter.KeysNeverCollide | app/infra/redis/rate_limiting/otp/keys.py:1-34 | Two keys are equal if and only if flow, window and email are |
| KeyLifetime.DecidesLikeFullHistory | app/infra/redis/rate_limiting/limiter.py:23-58 | Command by command, with the key expiring anywhere: as long as no expiry drops the key inside a request whose window still holds an admission, every decision is that of the full history |
| KeyLifetime.FireAgreesIff | app/infra/redis/rate_limiting/limiter.py:42-56 | At the first expiry that does, and only then, the stored set stops agreeing with the history |
| KeyLifetime.InvHolds | app/infra/redis/rate_limiting/limiter.py:23-58 | As long as no such expiry happens, the stored set agrees with the history between any two commands |
| KeyLifetime.LostEntryOvershootsReachable | app/infra/redis/rate_limiting/limiter.py:42-56 | One request at a time, limit two: an entry lost between ZADD and EXPIRE lets a third request into the window |
| OtpLimiter.RunTurn | app/infra/redis/rate_limiting/otp/limiter.py:50-55 | One call on the server decides and stores what the turn function says, other keys untouched |
| OtpLimiter.OtpRateLimit | app/infra/redis/rate_limiting/otp/limiter.py:27-71 | The chain on the server is RateLimit: up to three turns, ended by the first refusal, leaving the subject ready for its next request |
| OtpLimiter.AnswerIsAllThree | app/infra/redis/rate_limiting/otp/limiter.py:50-71 | For a subject whose requests come one at a time, a whole request is answered true if and only if its recorded history allows it at 1 per 30, 5 per 3600 and 20 per 86400 seconds |
| OtpLimiter.AnswerIsCounted | app/infra/redis/rate_limiting/otp/limiter.py:64-71 | A whole request is answered true if and only if it becomes one of the requests answered true by the server's own three turns |
| OtpLimiter.AnsweredIffRecorded | app/infra/redis/rate_limiting/otp/limiter.py:64-71 | The requests answered true are those recorded at the day window |
| OtpLimiter.StoreStandsForHistories | app/infra/redis/rate_limiting/otp/limiter.py:27-71 | However the turns of other subjects interleave, the stored sets of a subject whose own requests come one at a time stand for the histories of those requests |
| OtpLimiter.TrafficNeverInterferes | app/infra/redis/rate_limiting/otp/limiter.py:50-71 | Every turn of such a subject is decided as by a reference fed only that subject's clock readings |
| OtpLimiter.RecordsAreNested | app/infra/redis/rate_limiting/otp/limiter.py:50-71 | What the day window recorded the hour window recorded, and what that recorded the cooldown recorded |
| OtpLimiter.TurnRecords | app/infra/redis/rate_limiting/otp/limiter.py:50-71 | A turn that passes is recorded at its own window and nowhere else; a refused one is recorded nowhere |
| OtpLimiter.OtpRequestsAreBounded | app/infra/redis/rate_limiting/otp/constants.py:1-8 | Of such a subject at most 1 request in any 30 seconds, 5 in any 3600 and 20 in any 86400 is answered true, whatever the others do |
| ConcurrentLimiter.OvershootIsBounded | app/infra/redis/rate_limiting/limiter.py:27-49 | In every interleaving of k requests in flight, none in flight longer than the window, stored entries plus requests about to be added are at most limit + k - 1 |
| ConcurrentLimiter.OvershootIsReached | app/infra/redis/rate_limiting/limiter.py:27-49 | For every limit and every k some interleaving reaches that bound |
| ConcurrentLimiter.AloneIsSequential | app/infra/redis/rate_limiting/limiter.py:23-58 | A request with no other in flight leaves what one sequential call leaves |
| ConcurrentLimiter.InvHolds | app/infra/redis/rate_limiting/limiter.py:27-49 | In every interleaving a request that has pruned will count every stored entry |
| Slug.SlugifyGivesSlug | app/modules/workspaces/constants.py:57-72 | The output is empty or has no leading, trailing or doubled hyphen, for every string |
| Slug.SlugifyJoinsWords | app/modules/workspaces/constants.py:57-72 | slugify lowers, splits at whitespace, underscores and hyphens, drops other characters, discards empty pieces and joins with one hyphen |
| Slug.SlugifyFixesSlugs | app/modules/workspaces/constants.py:57-72 | slugify leaves a string alone if and only if it is a slug, and is idempotent |
| Slug.SlugAlphabet | app/modules/workspaces/constants.py:63-70 | The output holds only a-z, 0-9 and single inner hyphens |
| Slug.SlugifyKeepsWords | app/modules/workspaces/constants.py:63-64 | A word of a-z and 0-9 is its own slug |
| Slug.SlugifyAtSeparator | app/modules/workspaces/constants.py:60-70 | Around whitespace, an underscore or a hyphen the slugs of both sides are joined by one hyphen, an empty one left out |
| Slug.SlugifyDropsOthers | app/modules/workspaces/constants.py:63-64 | A character whose lower case holds neither a separator nor one of a-z and 0-9 changes nothing |
| Slug.SlugifySeesLowerCase | app/modules/workspaces/constants.py:58 | Strings with the same lower case have the same slug |
| Slug.InvalidIffNothingToKeep | app/modules/workspaces/constants.py:47-54 | A name is turned down as producing an invalid slug if and only if its lower case has none of a-z and 0-9 |
| Slug.ReservedIffListed | app/modules/workspaces/constants.py:16-54 | A slug is turned down as reserved if and only if it is listed, and every listed word is its own slug; any other non-empty slug is accepted |
| Slug.AsciiIsSane | app/modules/workspaces/constants.py:58-61 | The assumptions on the Unicode tables hold of plain ASCII |
| Migrations.SchemaDatabase.CommitMigration | app/infra/db/migration_runner.py:71-80 | Commits a version if and only if the primary key does not hold it yet |
| Migrations.SchemaDatabase.ApplyPending | app/infra/db/migration_runner.py:62-82 | The loop commits the pending versions in order up to the point where it dies |
| Migrations.SchemaDatabase.RunMigrations | app/infra/db/migration_runner.py:28-82 | One start, base schema included, commits a prefix of what is to do, and finishes exactly when it is not cut off |
| Migrations.TodoResumes | app/infra/db/migration_runner.py:39-82 | After any prefix of a run, what a new start has to do is the rest of it |
| Migrations.CrashesLoseNothing | app/infra/db/migration_runner.py:39-82 | However starts are cut off, together they commit a prefix of one uninterrupted run, in its order |
| Migrations.RerunIsNoOp | app/infra/db/migration_runner.py:65-69 | A start after a finished one does nothing |
| Migrations.NoVersionTwice | app/infra/db/migration_runner.py:71-80 | No version is ever committed twice, so the primary key never fires |
| Migrations.AllAppliedIffIncreasing | app/infra/db/migration_runner.py:62-69 | Every file above the starting version is applied, in order, if and only if the versions of those files strictly increase in file-name order |
| Migrations.UnpaddedNamesAreSkipped | app/infra/db/migration_runner.py:62-69 | Files 10 and 9, in the order their names sort: 9 is skipped for good |
| LoginOtp.LoginOtpTable.CreateLoginOtp | app/modules/auth/db/login_otp_queries.py:5-26 | Inserts a code for a user unless one is there, consumed or not, or it would expire as it is created |
| LoginOtp.LoginOtpTable.GetLoginOtp | app/modules/auth/db/login_otp_queries.py:29-38 | Reads the unconsumed code of a user, if any |
| LoginOtp.LoginOtpTable.ConsumeLoginOtp | app/modules/auth/db/login_otp_queries.py:41-51 | Consumes an unconsumed code, unless it was created after the given time, and leaves any other row alone |
| LoginOtp.LoginOtpTable.DeleteLoginOtp | app/modules/auth/db/login_otp_queries.py:54-60 | Removes the user's code and no other |
| LoginOtp.AuthenticateAccount | app/modules/auth/workflows/login/authenticate_account.py:33-126 | Consumes the code and inserts the session exactly when the user is known, the code unconsumed, unexpired, right and not created after the transaction began, the workspace there and the session insertable; otherwise neither table changes |
| LoginOtp.UninterruptedLogin | app/modules/auth/workflows/login/authenticate_account.py:33-126 | The login steps of the protocol, run together, are the whole workflow: they log in exactly with the right hash of an unconsumed, unexpired code that was there when the transaction began |
| LoginOtp.VerifiesIff | app/modules/auth/workflows/login/authenticate_account.py:50-83 | A login gets past its check exactly with the right hash of an unconsumed code that has not expired |
| LoginOtp.CodesAreConserved | app/modules/auth/workflows/login/request_otp.py:45-68 | In every interleaving, codes created for a user are those used, discarded, or still there unconsumed |
| LoginOtp.LoginsNeverExceedCodes | app/modules/auth/workflows/login/authenticate_account.py:50-121 | In every interleaving, logins plus an unconsumed code never exceed the codes created |
| LoginOtp.EachRowIsClosedOnce | app/modules/auth/db/login_otp_queries.py:41-51 | In every interleaving no row is consumed by two logins, and a row deleted unconsumed by none |
| LoginOtp.ConsumesPresentedIff | app/modules/auth/workflows/login/authenticate_account.py:50-88 | A login that commits consumes the code it checked if and only if no deletion of the user's code lies between its check and its consume |
| LoginOtp.ReplacementIsRefused | app/infra/db/schemas/02-constraints/auth/login_otp.sql:10-14 | If one does, and every code created since is stamped later than the login began, the login does not commit |
| LoginOtp.CodeServesOneLogin | app/infra/db/schemas/02-constraints/auth/login_otp.sql:7-14 | While every code is stamped later than the logins of its user under way, a login consumes the code it checked, no code serves two logins and a deleted one none |
| LoginOtp.OneCodeServesTwoReachable | app/modules/auth/db/login_otp_queries.py:41-47 | A run at one clock reading in which two logins that checked the same code both commit |
| LoginOtp.ReplacedCodeLogsInReachable | app/modules/auth/db/login_otp_queries.py:41-47 | A run at one clock reading in which a login commits whose code was deleted after it was checked |
| Sessions.SessionTable.CreateSession | app/infra/db/schemas/02-constraints/auth/sessions.sql:7-18 | Inserts a session unless its token hash is stored already, revoked rows included, or a CHECK fails |
| Sessions.SessionTable.GetSessionByToken | app/modules/auth/db/session_queries.py:32-45 | Finds an unrevoked session with that token's hash, if there is one |
| Sessions.SessionTable.RotateSession | app/modules/auth/db/session_queries.py:61-83 | Overwrites hash and expiry of an unrevoked session, if the hash is free and the expiry after creation |
| Sessions.SessionTable.RevokeSession | app/modules/auth/db/session_queries.py:86-97 | Revokes a session that is not revoked, once, unless that would date before its creation |
| Sessions.SessionTable.RefreshAccessToken | app/modules/auth/workflows/sessions/refresh_access_token.py:29-105 | Rotates a found, unexpired session of an existing user; otherwise nothing changes, the revocation of an expired one being rolled back |
| Sessions.SessionTable.Logout | app/modules/auth/workflows/sessions/logout.py:16-47 | Revokes the unrevoked session the token finds, expired or not, unless a CHECK fails, and otherwise changes nothing |
| Sessions.UninterruptedRefresh | app/modules/auth/workflows/sessions/refresh_access_token.py:36-105 | The refresh steps of the protocol, run together, rotate exactly an unexpired session the token finds |
| Sessions.UninterruptedLogout | app/modules/auth/workflows/sessions/logout.py:22-47 | The logout steps of the protocol, run together, revoke exactly a session the token finds |
| Sessions.InvHolds | app/modules/auth/db/session_queries.py:61-83 | In every interleaving each row stores the last token written to it and no token is stored twice |
| Sessions.FoundByLastWrittenToken | app/modules/auth/db/session_queries.py:32-45 | In every interleaving a token finds a session if and only if the session is unrevoked and the token is the last written to it; it then finds no other |
| Sessions.ReplacedTokenIsNeverFound | app/modules/auth/workflows/sessions/refresh_access_token.py:36-105 | An issued token that no longer finds a session never finds one again |
| Sessions.RevokedIsFinal | app/modules/auth/workflows/sessions/logout.py:22-47 | A revoked session is never found, rotated or written again |
| Sessions.RotationReplacesToken | app/modules/auth/workflows/sessions/refresh_access_token.py:76-96 | A rotation that commits writes the new hash and expiry, nothing else, and makes the new token the only one that finds the session; one that finds it revoked or breaks a CHECK writes nothing |
| Sessions.FoundTokenIsUnredeemed | app/modules/auth/workflows/sessions/refresh_access_token.py:40-50 | In every interleaving a token that still finds a session has not been redeemed |
| Sessions.RedemptionIsFirstIff | app/modules/auth/db/session_queries.py:67-74 | A rotation redeems its token for the first time if and only if no other refresh with that token committed between its lookup and its UPDATE |
| Sessions.TokenRedeemedTwiceReachable | app/modules/auth/db/session_queries.py:67-74 | A run in which two refreshes redeem the same token |

## Left out

- Routing, middleware, authentication guards, request and response schemas, logging and error bodies: no state to reason about.
- The MailRelay provider and its HTTP client: the provider is a free choice of outcome in each persist step.
- Celery, Redis and asyncpg: the queue is a multiset whose messages can be duplicated or lost, a sorted set is the sequence of its scores, and PostgreSQL is atomic guarded writes under constraints.
- Exceptions between loading a row and persisting its result (payload validation, an unknown provider, a provider that raises) leave no trace in the tables; they are the step in which a worker dies.
- `RuntimeError` for an unsupported delivery status: the status is one of three by type.
- The columns of a notification that delivery never changes (channel, provider, recipient, payload, metadata) and the CHECKs on them: `Submission` keeps recipient and request, the delivery engine none.
- JSON canonicalisation, SHA-256, SHA-512, JWTs, random draws and constant-time comparison: abstract, injective or fresh.
- The order in which RETURNING lists claimed rows and the order of ties in a claim: left open, as SQL leaves them.
- Negative INITIAL_RETRY_DELAY_SECONDS or MAX_RETRY_DELAY_SECONDS, for which the jitter draw raises.
- The rounding of Redis scores, which are real numbers here, and of the TTL clock; a call is one event in `SlidingWindow` and `OtpLimiter`, and `KeyLifetime` says what an expiry inside one does.
- Workflows.DeliverNotification: runs with the clock standing still, as do the other programs in `Workflows`; clock readings that differ within a task are the protocol's steps.
- The users a session or code belongs to being deleted, which cascades to both tables.
- Full Unicode tables: `slugify` is proved for every table in which spaces and slug characters are what they are in ASCII; the lower case of a character does not depend on its neighbours (a final sigma, dropped either way).
- Migration file names without a leading number, and the SQL text of migrations: a file is its version.
- Registration codes, workspace membership, name, email and API key validation, and the read routes: they would add only easy members.
- Crash recovery, billing, quotas and expiry of idempotency records: documented, not implemented. Idempotency records are permanent here, as nothing reads their expiry.
