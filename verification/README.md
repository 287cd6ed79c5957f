# Webhook delivery queues: a verified model

The repository holds four independent implementations, `q`, `k`, `g` and `d`, of one
service: a durable webhook queue with retries, backoff, a dead-letter queue, replay and
crash recovery. This project models each of them as its authors wrote it and proves what
it keeps over whole runs, for any interleaving, any responses, and crashes and failing
SQL statements at any point. Where a promise turns out false of the code, a run shows it
and the exact condition under which it holds is proved.

## How the model is built

- **A SQL statement is one atomic step.** A table is a map of rows. Each statement (each
  transaction in `k` and in q's `dead_letter`) is a function on rows, such as
  `QStore.AfterClaim`. The classes (`QStore.Db`, `QWorker.Worker`, `KDb.Db`, `KDb.Worker`,
  `GService.Service`, `DWorker.Db`, `DWorker.Worker`, `RateLimit.RateLimiter`) update rows
  as the source does and are proved against these functions.
- **A service is a transition system.** `QProtocol`, `KProtocol`, `GProtocol` and
  `DProtocol` define `State`, `Step`, `Enabled` and `Apply`. A run is a sequence of states
  and the steps between them (`IsRun`); `IsService` adds the initial state. Workers and
  tasks hold copies between steps, and any enabled step may come next. The lemmas named
  `...IsARun` and `TickIsTwoSteps` tie the classes to these systems.
- **History.** `ledger`, `answers` and `accepted` record what happened (sends and their
  answers, lost outcomes, replays, origins). No step reads them.
- **The world is a parameter.** Responses, validation results, clock readings, random
  draws, generated ids, failing statements and the order in which SQLite yields tied rows
  are arguments of steps and methods. So are the configured times and, for q, the number of
  rows a worker lists (20 in `q/src/delivery/worker.rs:112`).

| file | content |
|---|---|
| `q_store`, `q_protocol`, `q_sends`, `q_overshoot`, `q_ledgers`, `q_exact`, `q_recovery`, `q_ingest`, `q_worker`, `q_due`, `q_reset` | q: store, transition system, send bound and its attainment, send and dead-letter ledgers, when a burial costs exactly the limit, recoverability, idempotent submission, worker, when a retry is due and whether it is waited for, which rows a starting worker takes back |
| `k_protocol`, `k_progress`, `k_recovery`, `timestamp`, `gregorian`, `k_db`, `k_due` | k: ownership, progress and starvation, which jobs can still be delivered, timestamp text, the Gregorian date it shows, store and worker on text columns, when a retry is due |
| `g_protocol`, `g_leases`, `g_overwrite`, `g_progress`, `g_recovery`, `g_service`, `g_due` | g: invariants, lease safety, which delivered rows can still be taken back, a delivery's life, recoverability, tick, tasks and handlers, when a retry is due |
| `d_protocol`, `d_copies`, `d_progress`, `d_worker`, `d_text`, `d_due` | d: invariants, copy ledger of the two-table moves, a job's life, store and worker, timestamp text, when a retry is due |
| `agreement`, `plain`, `scripts` | the four services compared; the same for runs without crash or fault; such runs for every script |
| `ratelimit`, `readings`, `late`, `backoff` | q's limiter; the limiter when clock readings are out of order; a late check's own answer, and later answers after any history; the four backoff formulas |
| `common` | options, counting, the due query, answer sequences |

## Assumptions

- Clock readings never decrease in commit order. A statement reads the clock at its
  commit; where the source reads the clock twice around one statement (a retry's due time
  and `updated_at`), the model has one reading. The rate limiter is the exception: it
  reads the clock before it takes the lock, and `Readings` and `Late` say exactly what
  follows.
- `max_attempts` is at least 1 for rows created in k and g. q and d are modelled for 0 too,
  where it acts as 1.
- Generated UUIDs are fresh. They are natural numbers here.
- In `k` and `d` the clock is in the years 0000 to 9999. `KProtocol` and `DProtocol` count
  time in numbers; they agree with the text columns while due times are in these years too
  (`KDb.TextQueryIsChronological`, `DText.TextQueryIsChronological`), and `KDb.FarDueJams`
  and `DText.FarDueJams` say what happens otherwise. So progress of k
  (`KProgress.NoStarvation`) holds while no delay takes a due time past the year 9999.

## Where the code differs from its documentation

- `q/README.md:183-184` says that a dead-lettered row with limit `N` made exactly `N`
  sends. Stale copies let `W` workers make up to `N + W - 1` (`QSends.SendsAreBounded`,
  attained by `QOvershoot.BoundIsAttained`), and a copy that outlives a replay cuts the new
  budget short, down to one send (`QExact.ReplayCutShort`). For rows buried by a retryable
  failure, in runs without stale resets and rejections, the promise holds exactly for one
  worker or `N <= 1` (`QExact.ExactlyLimitIff`); one worker spends `N` sends and those whose
  outcome was lost in every run (`QExact.OneWorkerExact`). A permanent failure ends earlier
  (`Agreement.QAgreesExactly`). A final failing send does not bump `attempts`.
- `q/README.md:180-182` gives the delay before a retry. Only the listing looks at it: a claim
  made with an older copy comes early. Due times are kept in every run exactly for one
  worker, or where nothing is ever listed or no retry ever waits (`QDue.NeverEarlyIff`). In
  the other services the claim itself looks, and none is early (`KDue.NoEarlyClaim`,
  `GDue.NoEarlyClaim`, `DDue.NoEarlyFetch`).
- `q/README.md:162` calls the limiter a fixed window; the code slides it (`RateLimit`).
  While readings are ordered it follows the sliding rule. A check whose reading is late is
  itself answered wrongly exactly when the deque is full and more of it is younger than the
  reading than was forgotten of the window, or the window is full and the other way round
  (`Late.LateAnswer`); one prune or one hit that was faster to the lock is enough for either
  (`Late.PruneFirstAdmits`, `Late.UnseenHitRefuses`). The answers once the clock has passed
  all readings are right exactly when the deque stands for the youngest live hits
  (`Late.RightFromExactly`); where no live hit was forgotten, exactly when what it still
  holds is in order (`Readings.RightExactly`). A prune can forget live hits when it is not
  (`Readings.PruneShowsExactly`).
- `q/src/delivery/backoff.rs:20-21` gives the cap as `min(base * 2^exp, max)`; `checked_shl`
  drops high bits, so that holds exactly under the condition of `Backoff.QCapExact`.
- `k/webhook-delivery/README.md:213-216` promises redelivery of `in_flight` jobs after a
  crash; nothing selects them (`KProtocol.CrashOrphans`, `KProgress.CrashLosesAJob`). A job can
  still be delivered exactly when it is not such an orphan (`KRecovery.DeliverableIff`).
- `k/webhook-delivery/src/db.rs:3-5` says that text order is time order; past the year 9999
  it is so only under the condition of `Timestamp.TextOrderExactly`.
- A maximum delay of 2^63 ms or more lets k schedule a retry before the current time, except
  under the condition of `Backoff.KForwardIff`.
- g's finalizing updates do not look at the row, so a task that outlives the visibility
  timeout can overwrite `delivered`, and so can a requeue that races another one
  (`GLeases.LateTaskOverwrites`, `GLeases.LateRequeueOverwrites`). A delivered row can be
  taken back exactly while a live task of it has no 2xx or a requeue of it is between its
  statements (`GOverwrite.OverwritableIff`).
- Two overlapping redelivers in d make two jobs of one entry (`DCopies.OverlapDuplicates`).

## Model

| member | source | states |
|---|---|---|
| `QSends.SendsAreBounded` | q/src/delivery/worker.rs:126-172 | For any number W of workers and any interleaving and crashes, if the row is never reset as stale nor turned away, at most `max_attempts + W - 1` sends happen between insert or replay and the terminal state (one if the limit is at most 1; so `max_attempts` for one worker) |
| `QSends.RunBounded` | q/src/db.rs:155-192 | The invariant behind it: one holder at most, sends equal recorded attempts plus the one under way, and every attempt past the budget uses up one stale copy |
| `QSends.RunOneShot` | q/src/delivery/worker.rs:152-155 | With a limit of at most one, a live row has no recorded attempt and at most one send was made |
| `QSends.DeliveredIsFinal` | q/src/db.rs:155-179 | In such runs a delivered row never changes again |
| `QSends.RejectedIsNeverSent` | q/src/delivery/worker.rs:128-143 | A delivery that is never claimed is never sent, and nobody holds it |
| `QOvershoot.BoundIsAttained` | q/src/delivery/worker.rs:141-171 | The bound is exact: for every limit and every number of workers a run with no stale reset and no rejection makes that many sends before the row is dead |
| `QOvershoot.Retries` | q/src/db.rs:155-163 | A worker whose copy shows an attempt left gets to send and reschedule, however many attempts were made since: the claim rechecks neither attempts nor due time |
| `QLedgers.SendsAccountedFor` | q/src/db.rs:170-236 | One worker, crashing and losing writes anywhere: sends since insert or replay = the row's attempts + sends never recorded + one if a send buried the row + one waiting to be recorded |
| `QLedgers.RunOnCourse` | q/src/delivery/worker.rs:145-171 | One worker: while no outcome was lost, the answers received decide the row's status, attempts and burial |
| `QLedgers.EntriesBalance` | q/src/db.rs:196-247 | Over every run, dead-letter entries of a delivery = replays + one while it is dead-lettered + writes by workers to the row while already dead-lettered |
| `QLedgers.EntriesExact` | q/src/db.rs:303-313 | With one worker, or with many and neither stale reset nor rejection of the row, entries = replays + one while dead-lettered |
| `QLedgers.StepEntries` | q/src/db.rs:199-236 | A burial appends exactly one entry with the row's payload, destination and attempts of that moment, the error and the time, and marks the row so; no other step touches the entries of the row, and none removes any |
| `QExact.ExactlyLimitIff` | q/README.md:183-184 | For every limit N and worker count W: in all runs without stale resets and rejections of the row, a row that a retryable failure buried cost exactly max(1, N) sends, iff W = 1 or N <= 1 |
| `QExact.BuriedAfterLimit` | q/src/delivery/worker.rs:152-155 | Any W: if no replay finds the row held or listed by a worker, a retryable failure buries it only after max(1, N) sends |
| `QExact.OneWorkerExact` | q/src/delivery/worker.rs:145-171 | One worker, any run: a row that a retryable failure buried cost max(1, N) sends plus those whose outcome was lost |
| `QExact.ReplayCutShort` | q/src/db.rs:303-313 | For every N >= 2 and W >= 2 a run without stale resets and rejections in which, after a replay, a single failed send buries the row: the other worker's copy is from before it |
| `QRecovery.CrashForgets` | q/src/delivery/worker.rs:95-105 | A crash leaves the tables and the replies, and nothing that a worker or a handler held |
| `QRecovery.AcceptedIsKept` | q/src/db.rs:81-116 | Once accepted, a row stays for ever with its key, payload, destination and limit, and `delivered` means that a send was acknowledged |
| `QRecovery.AcknowledgedMeans2xx` | q/src/delivery/worker.rs:146-150 | Acknowledged means that an earlier send of this very row was answered 2xx |
| `QRecovery.AlwaysRecoverable` | q/src/delivery/worker.rs:96-114 | From every reachable state a delivery that is not terminal can be delivered within 3 steps of restart and 4 for each row that is not terminal |
| `QRecovery.Restart` | q/src/db.rs:317-324 | Crash, wait, stale reset: every row in flight is pending and due again, and nothing else changed status |
| `QIngest.IngestSync` | q/src/api/webhook.rs:119-144 | Refused, created, duplicate with the existing id and status, "unknown" or internal error, each with the exact table after it |
| `QIngest.IngestIsARun` | q/src/api/webhook.rs:119-144 | Table and reply of `IngestSync` are those of a run of submission and lookup |
| `QIngest.SameKeySameDelivery` | q/src/api/webhook.rs:133-141 | Any two submissions under one key ever answered, in any run, are told the same id, which still holds the first payload |
| `QIngest.RowsHaveOrigins` | q/src/db.rs:81-98 | Every row was inserted by one submission, before any other under its key, and still carries its data |
| `QIngest.UnknownOnlyOnFault` | q/src/api/webhook.rs:136-139 | The status "unknown" is answered exactly when the lookup fails in SQLite; the row is never missing |
| `QProtocol.RunSane` | q/src/db.rs:81-324 | In every reachable state keys are unique, copies held by workers match their rows' immutable columns, and a delivered row is acknowledged |
| `QProtocol.StepKeeps` | q/src/db.rs:153-324 | No step deletes a row or edits its key, payload, destination, limit or creation time |
| `QStore.CountersAddUp` | q/src/db.rs:339-374 | The four status counters partition the table |
| `QStore.Db.Insert` | q/src/db.rs:81-116 | Inserts a pending row due now; on a taken key answers the owner's id and changes nothing; on a taken id or a fault an error |
| `QStore.Db.ListDue` | q/src/db.rs:134-151 | The rows that the query selects, pending and due, without repetition, oldest first, and a due row left out means a full list of rows at least as old; none on a fault |
| `QStore.Db.Claim` | q/src/db.rs:155-163 | Wins iff the row is pending, and then only sets status and time |
| `QStore.Db.MarkDelivered` | q/src/db.rs:170-179 | The table after the update, whatever the row's status was |
| `QStore.Db.ScheduleRetry` | q/src/db.rs:182-192 | The table after the update: one more attempt, pending at the given time |
| `QStore.Db.DeadLetter` | q/src/db.rs:196-247 | Both tables change or neither; the entry copies the row as it was |
| `QStore.Db.ReplayDeadLetter` | q/src/db.rs:303-313 | Only a dead-lettered row is requeued and entries stay; nothing on a fault |
| `QStore.Db.ResetStaleInFlight` | q/src/db.rs:317-324 | Exactly the rows in flight whose stamp is `staleMs` old or more become pending, due and stamped now, and they are counted; nothing on a fault |
| `QReset.TakenBackIff` | q/src/delivery/worker.rs:97-102 | Over every run: a starting worker's reset takes a row in flight back iff the claim that put it there is `staleMs` old or more, and leaves it as it is otherwise |
| `QReset.FreshClaimSurvives` | q/src/db.rs:317-324 | Over every run: a row claimed less than `staleMs` ago, whatever became of it since, is unchanged by every starting worker |
| `QStore.Db.Stats` | q/src/db.rs:339-374 | The counters are the sizes of the four parts and add up to the table; none on a fault |
| `QWorker.Worker.Process` | q/src/delivery/worker.rs:126-172 | The tables after one row is processed, for every validation result, claim race, outcome and fault |
| `QWorker.NotSent` | q/src/delivery/worker.rs:128-143 | On the columns: a row that is turned away is buried with its entry, and one whose claim fails or is lost changes nothing |
| `QWorker.SentOnce` | q/src/delivery/worker.rs:145-171 | On the columns: delivered and counted, buried with its entry, or left in flight when the outcome is not stored |
| `QDue.RetryRow` | q/src/delivery/worker.rs:152-164 | After a retryable failure with attempts left the whole row: pending, counted, and due between the time of the record and that plus the base doubled min(attempt - 1, 20) times and capped |
| `QDue.RetrySpread` | q/src/delivery/backoff.rs:10-27 | For the due time so stored: every delay up to the cap and no other is reached by some draw, any two by numbers of draws that differ by at most one; the cap is the doubled base up to the maximum iff no bit is shifted out or the bits left reach the maximum |
| `QDue.NeverEarlyIff` | q/src/db.rs:134-163 | For every configuration and number of workers: no run ever claims a row before its due time iff there is at most one worker, or the list limit, the base or the maximum is zero |
| `QWorker.Worker.Poll` | q/src/delivery/worker.rs:107-114 | One turn of the loop processes each listed copy in turn, on the tables the ones before left; nothing if the listing fails |
| `QWorker.Worker.Start` | q/src/delivery/worker.rs:97-105 | The stale reset before the loop, zero rows if it fails |
| `QWorker.ProcessIsARun` | q/src/delivery/worker.rs:126-172 | What `Process` does is a run of the transition system of this worker's steps and the clock |
| `QClassify.ClassifyExactly` | q/src/delivery/classify.rs:21-30 | 2xx delivers, a transport error, 429 and 5xx are retryable, all else is permanent, and the error names the transport error or the status |
| `QClassify.DecimalReads` | q/src/delivery/classify.rs:27-28 | The status in the error text reads as its number, without leading zeros |
| `RateLimit.CheckAnswersByTheLog` | q/src/security/ratelimit.rs:26-43 | Refinement: after any checks and prunes, `check` accepts iff fewer than `limit` earlier accepted hits of the key lie in (now - window, now] |
| `RateLimit.WindowHoldsLimit` | q/src/security/ratelimit.rs:7-8 | Every window of that length holds at most `limit` accepted hits; deques stay sorted and at most `limit` long |
| `RateLimit.PruneIsInvisible` | q/src/security/ratelimit.rs:46-56 | Any prunes at any points change no later answer |
| `RateLimit.Coupled` | q/src/security/ratelimit.rs:29-41 | Every deque is its key's log short of expired hits, and any `limit + 1` accepted hits span a window |
| `Readings.RightExactly` | q/src/security/ratelimit.rs:26-43 | For readings in any order: from a clock past them all, every later check of a key with ordered readings is answered by the rule iff the hits of the key still held then are in order (histories that forgot no live hit; `Late.RightFromExactly` is for all) |
| `Readings.ChecksRemember` | q/src/security/ratelimit.rs:30-36 | Checks alone, with readings in any order, never forget a live hit |
| `Readings.LateReading` | q/src/security/ratelimit.rs:27-28 | After any ordered checks and prunes, one check with an arbitrary reading leaves all later answers right iff it is refused or no younger hit of its key is still in the window (its own answer: `Late.LateAnswer`) |
| `Late.LateAnswer` | q/src/security/ratelimit.rs:26-43 | After any ordered checks and prunes, a check with any reading gets the answer of the rule unless the deque is full and more of it is younger than the reading than was forgotten of the window that ends there, or that window is full and more of it was forgotten than is younger |
| `Late.PruneFirstAdmits` | q/src/security/ratelimit.rs:46-56 | Limit 1: after a hit and a prune that read a later instant, a check whose reading is within the window of the hit is accepted against the rule, and all later answers are right |
| `Late.UnseenHitRefuses` | q/src/security/ratelimit.rs:27-28 | Limit 1: a check that read the clock before the one hit is refused although no hit is in its window |
| `Late.RightFromExactly` | q/src/security/ratelimit.rs:26-56 | For every history of checks and prunes with readings in any order: from a clock past them all, every later answer of a key with ordered readings is right iff the running maxima of the hits still held are the youngest accepted hits in the window, at most `limit` of them, and the last hit held is the youngest |
| `Late.CountsAgreeIff` | q/src/security/ratelimit.rs:30-36 | The first half of that condition holds iff at every later time the deque holds as many hits as the rule counts, up to the limit |
| `Readings.PruneShowsExactly` | q/src/security/ratelimit.rs:46-56 | For readings in any order: a prune changes some later answer iff the last hit of the key has expired and an earlier one has not |
| `RateLimit.RateLimiter.Check` | q/src/security/ratelimit.rs:26-43 | Answer and new map of the loop over the deque |
| `RateLimit.RateLimiter.Prune` | q/src/security/ratelimit.rs:46-56 | Keeps exactly the keys whose last hit is younger than the window |
| `Backoff.QCapExact` | q/src/delivery/backoff.rs:23-27 | q's cap is the base doubled min(attempt - 1, 20) times and capped iff no bit is shifted out or the bits left reach the maximum; it never exceeds that value or the maximum |
| `Backoff.QMatchesK` | q/src/delivery/backoff.rs:25 | q and k cap alike exactly under that condition |
| `Backoff.QCapLosesBits` | q/src/delivery/backoff.rs:25 | A base of 2^63 gives an immediate second retry instead of the maximum |
| `Backoff.UniformInclusive` | q/src/delivery/backoff.rs:10-16 | The draw is reduced to `0..=cap` without overflow |
| `Backoff.JitterUniform` | q/src/delivery/backoff.rs:10-16 | The 2^64 draws map onto exactly `0..=cap`, and the numbers of draws for any two delays differ by at most one |
| `Backoff.KDoubles` | k/webhook-delivery/src/worker.rs:123-127 | For every u64 base and maximum the cap is iterated doubling, capped |
| `Backoff.KShiftExact` | k/webhook-delivery/src/worker.rs:125 | The exponent is min(attempts - 1, 20) iff the cast to u32 loses nothing or leaves more than 20 |
| `Backoff.KShiftWraps` | k/webhook-delivery/src/worker.rs:125 | 2^32 + 1 attempts retry after the base delay again |
| `Backoff.KForwardIff` | k/webhook-delivery/src/worker.rs:104-130 | No retry is ever due before it is scheduled, for all attempts and draws, iff `max_delay_ms` is below 2^63 or 1.2 times the cap after 20 doublings is at most 2^63 |
| `Backoff.KMonotone` | k/webhook-delivery/src/worker.rs:123-127 | The cap grows with the attempt and stays within the maximum |
| `Backoff.DDoubles` | d/src/worker.rs:78-83 | The same for d, with at most 10 doublings |
| `Backoff.DMonotone` | d/src/worker.rs:78-83 | d's cap grows with the attempt and stays within the maximum |
| `Backoff.GDoubles` | g/src/deliver.rs:19-24 | The same for g, with at most 16 doublings and base and maximum at least 1 |
| `Backoff.GMonotone` | g/src/deliver.rs:19-24 | g's cap grows with the attempt, from at least 1 up to the maximum |
| `Backoff.JitterBands` | k/webhook-delivery/src/worker.rs:128-130 | k and d delay between 0.8 and 1.2 of the cap, up to truncation |
| `Backoff.GBand` | g/src/deliver.rs:25-26 | g delays between half the cap and the cap, up to truncation |
| `KProtocol.Ownership` | k/webhook-delivery/src/db.rs:92-197 | Over all interleavings of any number of workers, crashes, lost writes and requeues: a job has at most one holder, the held copy is the row, pending implies attempts < max, in flight and delivered imply 1 <= attempts <= max, dead implies attempts = max |
| `KProtocol.RunOwned` | k/webhook-delivery/src/db.rs:94-122 | The inductive invariant: exclusive holders of exact copies, and counters that fit the status |
| `KProtocol.DeliveredIsFinal` | k/webhook-delivery/src/db.rs:127-137 | A delivered job never changes again |
| `KProtocol.OrphansStay` | k/webhook-delivery/src/db.rs:97-99 | A job in flight without a holder stays so for ever |
| `KProtocol.CrashOrphans` | k/webhook-delivery/README.md:213-216 | A crash orphans every job then in flight, in every continuation, contrary to the README |
| `KRecovery.DeliverableIff` | k/webhook-delivery/src/db.rs:92-197 | From every reachable state, for any limit and number of workers, an accepted job has a continuation that delivers it iff it is not in flight without a holder |
| `KRecovery.DeliverAny` | k/webhook-delivery/src/worker.rs:56-119 | ... and if it has one, it has one of claims, 2xx answers, their recording, time and requeues alone |
| `KProgress.CrashLosesAJob` | k/webhook-delivery/README.md:213-216 | A concrete run: submit, claim, crash, and the accepted job is never sent |
| `KProgress.SendsAreBounded` | k/webhook-delivery/src/worker.rs:84-119 | At most `max_attempts` sends between insert or requeue and the end, and a terminal row tells its answers exactly |
| `KProgress.RunOnCourse` | k/webhook-delivery/src/worker.rs:84-119 | In every reachable state the answers so far match the row's status and attempts and what the holder knows |
| `KProgress.NoStarvation` | k/webhook-delivery/src/db.rs:92-124 | A pending job past its due time, with r pending jobs due no later, is in flight within ceil(r / limit) claims by any workers, whatever is submitted, requeued or rescheduled meanwhile, if no wait is negative (`Backoff.KForwardIff`) and, as assumed for k throughout, due times stay within the year 9999 |
| `KProgress.RankFalls` | k/webhook-delivery/src/db.rs:96-104 | While it waits, its rank never grows and falls by `limit` with every claim |
| `KProgress.ClaimAhead` | k/webhook-delivery/src/db.rs:96-120 | A claim takes the overdue job or exactly `limit` jobs from ahead of it |
| `Selection.LeftOutMeansFull` | k/webhook-delivery/src/db.rs:97-99 | If the due query leaves a due row out, its answer is full and at least as old throughout |
| `Selection.OldestExists` | k/webhook-delivery/src/db.rs:97-99 | The due query always has an answer |
| `Timestamp.TextIsChronological` | k/webhook-delivery/src/db.rs:205-209 | For years 0000 to 9999, comparing two formatted timestamps byte by byte is comparing the instants floored to milliseconds (section 5.1 of RFC 3339) |
| `Timestamp.TextOrderExactly` | k/webhook-delivery/src/db.rs:205-209 | For all instants from the year 0000 on, an earlier one sorts before a later one iff the later year is at most 9999, or both years are past 9999 and the earlier is at most the later's leading digits, as many as it has itself |
| `Timestamp.WiderYears` | k/webhook-delivery/src/db.rs:205-209 | The year 10000 sorts before 200000, but 99999 does not sort before 100000 |
| `Timestamp.ParseFormatted` | k/webhook-delivery/src/db.rs:211-214 | Parsing a formatted instant gives its floor to the millisecond |
| `Timestamp.FormatParsed` | k/webhook-delivery/src/db.rs:211-214 | Text of the stored form that parses is the format of its instant |
| `Gregorian.TextShowsDate` | k/webhook-delivery/src/db.rs:205-209 | For a date (y, m, d) and time of the years 0000 to 9999, with the days before it by the closed form and the table 0, 31, 59, ..., 334: the text of that instant is exactly `yyyy-mm-ddThh:mm:ss.mmmZ`, and its milliseconds are the closed form |
| `Gregorian.FarTextShowsDate` | k/webhook-delivery/src/db.rs:205-209 | Past the year 9999 the same after a plus sign and exactly the digits of the year |
| `Gregorian.DateExists` | k/webhook-delivery/src/db.rs:205-209 | Every instant from the year 0000 on is such a date and time |
| `Timestamp.MillisInverse` | k/webhook-delivery/src/db.rs:211-214 | A valid date and time is recovered from its millisecond count |
| `Timestamp.StoredOrder` | k/webhook-delivery/src/db.rs:97-99 | On the column, SQL comparison of text is comparison of the parsed instants |
| `Timestamp.EpochIs1970` | k/webhook-delivery/src/db.rs:207-209 | The constant for the epoch is the days before 1970 in milliseconds |
| `Calendar.DaysBeforeYear` | k/webhook-delivery/src/db.rs:207-209 | Years of 365 and 366 days add up to the Gregorian closed form |
| `KDb.TextQueryIsChronological` | k/webhook-delivery/src/db.rs:96-104 | A batch answers the text query iff it answers the query on milliseconds |
| `KDb.AnswerSelects` | k/webhook-delivery/src/db.rs:97-99 | On the columns: the ids selected are pending with a due text not after the clock's, in the order of that text, and such a row left out means a full answer of rows no later |
| `KDb.FlippedRows` | k/webhook-delivery/src/db.rs:111-120 | On the columns: a claimed row is in flight, counts one attempt and is stamped, and no other row changes |
| `KDue.RetryRow` | k/webhook-delivery/src/worker.rs:98-130 | After a failure that is not the last the job waits the capped doubling times 1 + jitter without its fraction (so above 0.8 and at most 1.2 of it), or the maximum as a signed number where that is beyond 63 bits |
| `KDue.RetryText` | k/webhook-delivery/src/worker.rs:103-115 | The stored row then holds the text of that due time, for every year |
| `KDue.EndRow` | k/webhook-delivery/src/worker.rs:84-98 | Every other end of an attempt: delivered, dead, or nothing on a fault |
| `KDue.NoEarlyClaim` | k/webhook-delivery/src/db.rs:92-124 | Over every run: after an insert, a requeue or a retry the next claim of the job comes no earlier than the wait written then |
| `KDb.FlipEach` | k/webhook-delivery/src/db.rs:111-120 | The loop of the claim updates exactly the selected rows and returns them as they are after it, unless one of them cannot be read back |
| `KDb.Db.ClaimDueJobs` | k/webhook-delivery/src/db.rs:92-124 | All or nothing: the claim of the transition system on the parsed rows, returning exact copies; rolled back on a fault or when a selected row cannot be read |
| `KDb.FarDueJams` | k/webhook-delivery/src/db.rs:97-119 | Once a pending job is due past the year 9999, every claim selects a row that cannot be read, so by the contract above no claim takes anything |
| `KDb.Db.InsertJob` | k/webhook-delivery/src/db.rs:61-85 | A fresh pending job due now, or an error and no change |
| `KDb.Db.MarkDelivered` | k/webhook-delivery/src/db.rs:127-137 | On text, the delivered update of the transition system |
| `KDb.Db.RescheduleJob` | k/webhook-delivery/src/db.rs:140-158 | On text, the reschedule of the transition system, for due times of any year |
| `KDb.Db.MarkDead` | k/webhook-delivery/src/db.rs:161-169 | On text, the death of the transition system |
| `KDb.Db.RequeueDead` | k/webhook-delivery/src/db.rs:183-197 | Only a dead job is requeued, attempts zero and due now; nothing on a fault |
| `KDb.Worker.HandleOne` | k/webhook-delivery/src/worker.rs:84-119 | The stored and the parsed table after one job is handled, for every outcome and fault, with no other row touched; a retry due past the year 9999 leaves the row that jams claims |
| `KDb.Worker.Turn` | k/webhook-delivery/src/worker.rs:61-79 | One turn claims at most 8 jobs and handles each copy in turn, or does nothing when the claim fails; row by row for due times of any year |
| `KDb.HandledRowIs` | k/webhook-delivery/src/worker.rs:84-119 | Up to the year 9999 the stored row parses to the job that the transition system has after the same outcome |
| `KDb.HandleIsARun` | k/webhook-delivery/src/worker.rs:84-119 | What `HandleOne` does is a run of the transition system |
| `GProtocol.CountersHold` | g/src/worker.rs:86-136 | In every run with late tasks, double claims, reclaims, crashes and racing requeues: every pending or processing row and every live task has attempts < max, no row exceeds max, dead-lettered implies attempts = max and an error, delivered implies a 2xx for that delivery |
| `GProtocol.RunSane` | g/src/worker.rs:24-54 | The inductive invariant behind it |
| `GProtocol.AcceptedIsKept` | g/src/routes.rs:123-140 | An accepted delivery keeps its row, payload and destination for ever |
| `GProtocol.AcknowledgedMeans2xx` | g/src/worker.rs:86-98 | Acknowledged means that an earlier task of this very row got a 2xx |
| `GLeases.LeasesExclude` | g/src/worker.rs:24-54 | If every task ends within the visibility timeout of its claim and requeues of one delivery do not overlap, no two live tasks hold the same delivery |
| `GLeases.RunLeased` | g/src/worker.rs:24-54 | The invariant: a live task's row is processing with the task's claim time and attempts, and a requeue under way means still dead-lettered |
| `GLeases.DeliveredIsFinal` | g/src/worker.rs:87-98 | Under the same conditions a delivered row is never overwritten |
| `GOverwrite.OverwritableIff` | g/src/worker.rs:83-136 | From any state with a delivered row, some continuation takes the row back iff a live task of it has not got a 2xx or a requeue of it has passed its status check |
| `GLeases.LateTaskOverwrites` | g/src/worker.rs:116-130 | A concrete run: claimed again after the timeout, delivered by the second task, put back to pending by the first |
| `GLeases.LateRequeueOverwrites` | g/src/routes.rs:205-235 | A concrete run without late tasks: two requeues see the dead letter, the row is delivered between their updates, and the second puts it back to pending |
| `GProgress.RunOnCourse` | g/src/worker.rs:83-136 | While leases hold and no outcome was lost, the answers decide status and attempts |
| `GRecovery.AlwaysRecoverable` | g/src/worker.rs:24-54 | From every reachable state a delivery that is not terminal can be delivered within 3 steps of restart and 5 for each row that is not terminal |
| `GRecovery.StartOver` | g/src/db.rs:48-57 | Restart and waiting: every processing row is pending and due, nothing else changed status |
| `GService.Service.CreateWebhook` | g/src/routes.rs:123-140 | A fresh pending row due now, or an error and no change |
| `GService.Service.ResetProcessing` | g/src/db.rs:48-57 | All processing rows, and only they, become pending; they are counted |
| `GService.Service.ReclaimStale` | g/src/worker.rs:24-33 | The rows processing past the timeout, and only they, become pending; they are counted |
| `GService.Service.Tick` | g/src/worker.rs:21-73 | The rows selected, the table and the spawned tasks after a tick, also when either statement fails |
| `GService.TickTakes` | g/src/worker.rs:21-54 | On the columns as the tick finds them: it takes rows that are pending, or processing past the timeout, and due, in the order of their due times, a waiting row left out means a full batch of rows at least as old, and each row after it |
| `GDue.AnswerSelects` | g/src/worker.rs:43-47 | The same for the claiming statement alone |
| `GDue.RetryRow` | g/src/worker.rs:113-130 | After a failure with attempts left the whole row, due from the start of the attempt by the draw without its fraction, which lies between half the capped doubling and all of it |
| `GDue.RunDueIsWritten` | g/src/worker.rs:113-130 | Over every run: what create, requeue and retry write is due now or at least half the backoff after the start of the attempt |
| `GDue.NoEarlyClaim` | g/src/worker.rs:39-54 | Over every run, late tasks and racing requeues included: no task is claimed before the due time that its row's last create, requeue or retry wrote |
| `GService.Service.SpawnEach` | g/src/worker.rs:56-70 | One task for each returned row, with the columns returned |
| `GService.Service.Finalize` | g/src/worker.rs:83-136 | The table after a task's final update, whatever the row holds by then |
| `GService.Service.RequeueFromDlq` | g/src/routes.rs:201-239 | Not found, conflict with the status, requeued with a fresh budget, or an error from either statement and no change |
| `GService.RequeueIsARun` | g/src/routes.rs:201-239 | What a requeue of a dead-lettered row leaves is what a run of its two steps leaves |
| `GService.TickIsTwoSteps` | g/src/worker.rs:21-73 | A tick is the steps Reclaim and Claim at one clock reading |
| `GService.Service.ProcessJob` | g/src/worker.rs:75-139 | The table after a task: its outcome stored with the time it started |
| `GService.ProcessIsARun` | g/src/worker.rs:75-139 | What a task does is a run of the transition system, with time passing while the request is out |
| `DCopies.CopiesExact` | d/src/db.rs:127-214 | Over every run with crashes and failing statements anywhere and overlapping redelivers: an accepted submission has one row in the two tables, plus one while a move of it is midway, plus one for each move stopped between its statements or whose DELETE found nothing |
| `DCopies.NothingIsLost` | d/src/db.rs:127-148 | Every accepted payload and destination is always in `jobs` or `dead_letters` |
| `DCopies.OneCopyEach` | d/src/db.rs:178-214 | With no crash, no failing DELETE and no overlapping redeliver, each submission has exactly one row outside a move |
| `DCopies.SizesAddUp` | d/src/db.rs:127-214 | ... and the two table sizes add up to the number accepted |
| `DCopies.CrashForgets` | d/src/worker.rs:18-25 | A crash leaves the two tables, and nothing that the worker or a call held |
| `DCopies.RunEntriesThere` | d/src/db.rs:178-182 | Without overlapping redelivers, the entry a call has read is still there |
| `DCopies.OverlapDuplicates` | d/src/db.rs:178-214 | A concrete run without crash or fault: two overlapping redelivers make two jobs of one submission |
| `DProtocol.RunSane` | d/src/db.rs:85-148 | In every reachable state the worker's copies are the rows, rows carry accepted content, attempts stay below the limit in `jobs` and within it in `dead_letters`, `Dead` is never stored, delivered implies a 2xx |
| `DProgress.RunOnCourse` | d/src/worker.rs:47-75 | While no outcome was lost, the answers decide whether a job is pending, delivered or replaced by an entry, and their attempts |
| `DWorker.Db.Enqueue` | d/src/db.rs:66-83 | Inserts the job, or an error and no change |
| `DWorker.Db.FetchDue` | d/src/db.rs:87-97 | By the text query: the selected rows, pending and due, without repetition, oldest first, and a due row left out means a full batch of rows at least as old; none on a fault or when one of them cannot be read back |
| `DText.TextShowsDate` | d/src/db.rs:77-78 | For a date and time of the years 0000 to 9999: the text is exactly `yyyy-mm-ddThh:mm:ss`, the fraction and `+00:00` |
| `DText.FractionShows` | d/src/db.rs:77-78 | The fraction has the least of 0, 3, 6 and 9 digits that loses no nanosecond |
| `DText.FarDueJams` | d/src/db.rs:228-247 | Once a pending job is due past the year 9999, every fetch selects a row that cannot be read, so by the contract above none returns anything |
| `DText.NanosAreChronological` | d/src/db.rs:77-78 | For years 0000 to 9999, comparing d's text, whose fraction has 0, 3, 6 or 9 digits, is comparing the instants to the nanosecond |
| `DText.FractionOrder` | d/src/db.rs:77-78 | A shorter fraction sorts as the number it stands for |
| `DText.TextQueryIsChronological` | d/src/db.rs:89-94 | A batch answers the query on d's text iff it answers the query on instants |
| `DWorker.Db.RecordAttempt` | d/src/db.rs:100-114 | Writes the number given; keeps the due time when none is given |
| `DWorker.Db.MarkDelivered` | d/src/db.rs:117-124 | Sets the status and leaves attempts alone |
| `DWorker.Db.MoveToDlq` | d/src/db.rs:127-148 | Both tables after INSERT and DELETE, when either may fail; success means that the entry has replaced the job |
| `DWorker.Db.InsertAndDelete` | d/src/db.rs:183-213 | Both tables after the two statements of a redeliver |
| `DWorker.Db.Redeliver` | d/src/db.rs:178-214 | Not found, an error with the tables as the failing statement leaves them, or a fresh job with the entry's content in place of the entry |
| `DWorker.RedeliverIsARun` | d/src/db.rs:178-214 | What a redeliver of an entry leaves is what a run of its three steps leaves |
| `DWorker.Worker.ProcessJob` | d/src/worker.rs:34-62 | The tables after one job, for every refusal, outcome and fault |
| `DWorker.Worker.HandleFailure` | d/src/worker.rs:64-76 | Moved with the failed send counted, or rescheduled with it |
| `DDue.RetryRow` | d/src/worker.rs:64-83 | After a failure with attempts left the job counts it and waits the capped doubling (at most ten) times the jitter without its fraction, so above 0.8 and at most 1.2 of it, or five seconds where that is beyond 63 bits |
| `DDue.EndRow` | d/src/worker.rs:34-68 | Every other end: delivered, or moved to an entry with the text, error and attempts it gets, with either statement failing |
| `DDue.NoEarlyFetch` | d/src/db.rs:87-97 | Over every run: after an enqueue, a redeliver or a retry the next fetch of the job comes no earlier than the wait written then |
| `DWorker.Worker.Poll` | d/src/worker.rs:18-25 | One turn processes at most 10 due jobs, each on the tables the ones before left; nothing if the fetch fails or meets a row that cannot be read |
| `DWorker.ProcessIsARun` | d/src/worker.rs:34-76 | What `ProcessJob` does is a run of the transition system |
| `Agreement.FourAgree` | q/src/delivery/worker.rs:145-171 | For every script of 2xx and retryable failures, any runs of the four services that play it to the end with no outcome lost (k: any run) send equally often, min(first 2xx, max_attempts), decide alike, and leave attempts (delivered/dead) n/n-1 in q, n/n in k, n/n in g, n-1/n in d |
| `Plain.PlainRunsAgree` | g/src/worker.rs:83-136 | The same sends and verdict for all runs of the four that play the script with no crash, failing write, rejection or refused destination among their steps (k: any run) |
| `Scripts.EveryScript` | k/webhook-delivery/src/worker.rs:84-119 | For every script and limit all four services have such a run, with draws and delays the code can make |
| `Agreement.QOutcome` | q/src/delivery/worker.rs:145-171 | q's part: any run of one worker in which nothing was lost |
| `Agreement.KOutcome` | k/webhook-delivery/src/worker.rs:84-119 | k's part: any run with any number of workers, crashes and lost writes |
| `Agreement.GOutcome` | g/src/worker.rs:83-136 | g's part: any run in which leases hold and nothing was lost |
| `Agreement.DOutcome` | d/src/worker.rs:47-75 | d's part: any run in which nothing was lost |
| `Agreement.QAgreesExactly` | q/src/delivery/worker.rs:167-170 | On scripts with permanent failures, q sends and decides like the others iff none occurs before the last send the others make |
| `Agreement.QAgreesOnResponses` | q/src/delivery/classify.rs:21-30 | The same on raw responses: iff each response before that one is a 2xx, a 429, a 5xx or a transport error |

## Left out

- HTTP servers, routing, JSON, the requests themselves, TLS, configuration, logging and metrics: a send is an outcome chosen by the environment.
- SQLite: a statement or transaction is one atomic update that may fail; locking modes, pools, WAL and schema migration are not modelled. The list endpoints and q's `find_dlq_entry` are read-only and left out.
- Destination validation, signatures, authentication: validation is an environment choice at each attempt, and in d a verdict of its own.
- Row and clock arithmetic is unbounded: the 32- and 64-bit columns and the overflow panic of the date library are not modelled. Delays, their casts and fallbacks, and limiter counts have their machine widths.
- Backoff.JitterBands: takes the floating-point jitter and product over the reals, so rounding of the product is not modelled.
- Backoff.GBand: takes the floating-point draw over the reals.
- Backoff.GDoubles: takes g's f64 power and product over the integers, where f64 is exact up to 2^53.
- Backoff.GMonotone: as Backoff.GDoubles.
- Timestamp.FormatParsed: models `parse_ts` on the stored form only (24 characters, UTC); the other forms of RFC 3339 that the library accepts occur in no stored row. Leap seconds and instants before the year 0000 are not modelled.
- QIngest.IngestSync: the insert and the lookup run without a gap; the gap is in QProtocol as two steps.
- GService.Service.RequeueFromDlq: its two statements run without a gap; the gap is in GProtocol as two steps.
- DWorker.Db.Redeliver: the lookup and the two statements run without a gap; the gap is in DProtocol.
- g's semaphore: a spawned task may start at any time, which includes every start that the semaphore allows.
- The due query's order among rows with equal times, and the order in which SQLite returns a claim's rows, are arbitrary here.
- Crash recovery of k: no code implements it.
- Recoverability of d: a crash leaves its jobs pending, so only the loss of rows is treated.
- q's shutdown channel and k's cancellation token: stopping is a crash or the end of a worker.
