# Proofs about the alerting engine

This project models the parts of the engine whose correctness rests on single SQL statements and
on goroutines that interleave, and proves what they guarantee.

- **Leased work.** `LeaseTable.dfy` has the rows of `queue_items` and `notification_tasks` and
  the atomic statements on them. `LeaseProtocol.dfy` lets any number of workers run their
  multi-statement polls, settling calls, crashes and lost acknowledgements in any order, and shows
  that every such run is a sequence of those atomic statements, so what holds of sequences holds of
  all interleavings. `LeaseRepository.dfy`, `Queue.dfy` and `Notification.dfy` are the Go
  repositories and services as classes, with other sessions' statements arriving before each of
  their own. `Backoff.dfy` is the retry delay in 64-bit arithmetic, `Template.dfy` the rendering of
  messages.
- **Alerts.** `AlertTable.dfy` has the alert row, its two logs and their statements,
  `AlertProtocol.dfy` evaluations and operators interleaved statement by statement, with the books
  of a run, `AlertHistory.dfy` what the columns of an alert tell about the run, `AlertReplay.dfy`
  what the transition log tells about one alert, and `AlertService.dfy` the repository and service
  as classes: each call is a session of that protocol, with the other sessions' steps before each
  of its statements.
- **Ingestion.** `Dedupe.dfy` is the concurrent filter under every schedule, `Ingestion.dfy` the
  transactional insert and the replay of batches.
- **Rules.** `Conditions.dfy` evaluates condition trees, `Rules.dfy` keeps the stored rules valid,
  `Silences.dfy` finds silences, and `RuleEvaluation.dfy` puts evaluation, alerts, silences and
  notifications together.
- **Keys.** `Labels.dfy` and `Keys.dfy` are the canonical prints, each with the parser that inverts
  it and the exact class of inputs on which it does.

A run is a sequence of steps, each naming the choices that the database, the scheduler or a clock
made; `Feasible` says that the steps can be taken one after the other. Loops over Go maps and
schedulers pick with `:|`, so what is proved holds for every order. What becomes of a statement is an
input (`Fate`: executed and acknowledged, lost, or executed with its acknowledgement lost; reads and
statements inside a transaction just fail), and so are clock readings, generated ids and what other
sessions do between two statements. Times are integers in nanoseconds, numbers in conditions are
reals, and the integers of the backoff wrap at 64 bits.

Where a promise does not hold of the code on all inputs, the exact condition is proved:

- The backoff delay is the intended one if and only if bit 54 - a of 5^9 is clear; from the 34th
  earlier attempt on it can be negative (`Backoff.BackoffExact`, `Backoff.BackoffRange`).
- A Fail is harmless on the rows nobody runs if and only if its owner is not empty
  (`LeaseTable.EmptyOwnerIsTheOnlyHole`); under a non-empty owner every settling statement that
  changes anything comes from the owner of a running row (`LeaseTable.SettlingNeedsTheClaim`). The
  queue service makes sure of that, the notification service takes its worker id as it comes.
- The prints can be read back, by the parsers given here, if and only if the fields keep clear of the
  separators, where a group-by scope need only keep clear of the "::{" that opens the labels;
  outside that class different inputs can print alike, as the collisions beside them show
  (`Labels.PrintRoundTrip`, `Keys.FingerprintRoundTrip`, `Keys.DedupeRoundTrip`).
- Replaying a batch asks for nothing new if and only if sampling cannot tell the two ingestions apart:
  an event without a time of its own is sampled by the time of its ingestion
  (`Ingestion.ReplayBringsNothingNew`).
- Requeue followed by FailTask is harmless if and only if the requeue was executed
  (`Notification.RequeueShieldsFromFail`).
- Rendering is independent of the order of the payload, for every template, if and only if no value
  carries another key's marker or ends in a beginning of it (`Template.ConfluentWhenPeaceful`).
- Two updates of a rule amount to one provided that the first is not refused; two that are refused
  one by one can be stored together (`Rules.UpdatesCompose`, `Rules.IntermediateMustBeValid`).
- The evaluation that inserts an alert goes on to log its firing if and only if nothing touches the
  alert between the insert and the re-select (`AlertProtocol.FiringNeedsAnUntouchedInsert`).
- Complementing an operator negates its test if and only if the operator is known
  (`Conditions.ComplementNegates`).

`dafny verify dfyconfig.toml` checks everything.

## Model

| member | source | states |
|---|---|---|
| LeaseTable.ExecKeepsInv | internal/queue/infrastructure/pg_repository.go:79-149 | After any sequence of statements: a row is running iff it names an owner iff it has a lease time, attempts never exceed max_attempts, and it has failed iff they are used up |
| LeaseTable.TerminalRowsAreFinal | internal/queue/infrastructure/pg_repository.go:98-149 | Completed and failed rows never change again in any column, although no settling UPDATE tests the status |
| LeaseTable.ClaimFreezesRow | internal/queue/infrastructure/pg_repository.go:98-149 | A running row stays exactly as it is until its own owner settles it |
| LeaseTable.EmptyOwnerIsTheOnlyHole | internal/queue/infrastructure/pg_repository.go:112-134 | On a row nobody runs, a Fail changes nothing if and only if its owner is not the empty string |
| LeaseTable.SettlingNeedsTheClaim | internal/queue/infrastructure/pg_repository.go:98-149 | Under a non-empty owner, a settling statement that changes anything was sent by the owner of a running row |
| LeaseTable.OthersSpare | internal/queue/infrastructure/pg_repository.go:42-149 | Statements of other sessions leave an owner's claims as they are, give it none, and take back no attempt |
| LeaseTable.SelectForUpdate | internal/queue/infrastructure/pg_repository.go:51-60 | ORDER BY, LIMIT, SKIP LOCKED: eligible unlocked rows in order; an eligible row is skipped only when locked or cut off by the limit |
| LeaseTable.Ledger | internal/queue/infrastructure/pg_repository.go:24-149 | Over any run, claims = completes + fails + requeues + 1 if running; attempts counts the fails; a task completes once at most |
| LeaseTable.ClaimsAreBounded | internal/queue/infrastructure/pg_repository.go:117-126 | Claims <= max_attempts + requeues; failed iff the fails equal max_attempts |
| LeaseTable.MaxAttemptsIsFixed | internal/queue/infrastructure/pg_repository.go:79-149 | No statement changes max_attempts |
| LeaseTable.WorkIsBounded | internal/queue/infrastructure/pg_repository.go:117-126 | A potential over all tasks drops with every claim, complete and fail, so without requeues and inserts they are bounded by it for every schedule |
| LeaseTable.WriteBackIsClaim | internal/queue/infrastructure/pg_repository.go:79-85 | The unguarded UPDATE by id list is an atomic claim while the listed rows are claimable |
| LeaseProtocol.StepRefinesTable | internal/queue/infrastructure/pg_repository.go:42-96 | Each step of the multi-statement protocol is at most one atomic statement; a commit finds all its locked rows still claimable |
| LeaseProtocol.RunKeepsInv | internal/queue/infrastructure/pg_repository.go:42-149 | Claims in hand, row locks and rows read earlier agree with the table in every state of any interleaving of any number of workers |
| LeaseProtocol.RunRefinesTable | internal/queue/infrastructure/pg_repository.go:42-149 | Any interleaving, with lost acknowledgements and crashes, has the same effect as a sequence of atomic sound statements |
| LeaseProtocol.ClaimsAreExclusive | internal/queue/infrastructure/pg_repository.go:42-96 | In no reachable state do two workers hold a claim on one task, or one worker hold it twice |
| LeaseProtocol.SettlingNeverBlocks | internal/queue/infrastructure/pg_repository.go:98-149 | No settling statement ever waits for a row lock |
| LeaseProtocol.FailAgreesWithRow | internal/queue/application/service.go:67-80 | The delay and last-attempt decision made from an earlier read are those of the row the UPDATE meets |
| LeaseProtocol.FailAfterSettlingIsFree | internal/notification/application/service.go:102-106 | The FailTask that a worker sends for a task it has already settled or requeued changes nothing, in any interleaving |
| LeaseProtocol.PollSkipsOnlyLockedRows | internal/queue/infrastructure/pg_repository.go:51-60 | In every run an eligible row that a poll passed over is locked by another worker's open transaction, stays as it is until that closes, and then is that worker's task or free as before |
| LeaseProtocol.DueTimeIsKept | internal/queue/infrastructure/pg_repository.go:55-56 | A task left pending with a due time is not under way in any later state whose clock is before it |
| LeaseProtocol.RetriesAreSpaced | internal/queue/infrastructure/pg_repository.go:117-126 | After a failure that leaves the task pending nobody works on it before the delay has passed, which is the intended backoff for every task with at most 35 attempts |
| LeaseProtocol.RunLedger | internal/queue/infrastructure/pg_repository.go:24-149 | Ledger and retry bound for every interleaving from the empty table |
| LeaseProtocol.RowsStayPut | internal/queue/infrastructure/pg_repository.go:42-149 | From any reachable state on, terminal rows never change and a running row waits for its owner, crash or not |
| LeaseRepository.Scan | internal/queue/infrastructure/pg_repository.go:64-74 | The loop over the selected rows returns their ids and rows in order |
| LeaseRepository.MarkRunning | internal/queue/infrastructure/pg_repository.go:86-90 | The snapshots become what the UPDATE wrote |
| LeaseRepository.PolledMeans | internal/queue/infrastructure/pg_repository.go:42-96 | Column by column: the polled tasks are exactly what the owner holds and did not hold, pending and due and wanted before, nothing else is touched, they come by available_at and created_at, and a row that could be taken is left out only at the limit |
| LeaseRepository.PGRepository.Insert | internal/queue/infrastructure/pg_repository.go:24-31 | Stores the row unlocked under a free id if executed, and reports it if acknowledged |
| LeaseRepository.PGRepository.PollByID | internal/queue/infrastructure/pg_repository.go:33-40 | The row as other sessions left it, or NotFound |
| LeaseRepository.PGRepository.Poll | internal/queue/infrastructure/pg_repository.go:42-96 | One atomic claim of a legal selection with matching snapshots; a commit whose acknowledgement is lost leaves the claims standing and returns an error |
| LeaseRepository.PGRepository.PollTransaction | internal/notification/infrastructure/pg_repository.go:110-155 | The same for the notification table's poll |
| LeaseRepository.PGRepository.Complete | internal/queue/infrastructure/pg_repository.go:98-110 | Reports success iff acknowledged and the caller held the task before other sessions ran; takes effect iff executed and held, acknowledged or not |
| LeaseRepository.PGRepository.Fail | internal/queue/infrastructure/pg_repository.go:112-134 | Likewise; the row it changes is the one the caller last saw |
| LeaseRepository.PGRepository.Requeue | internal/queue/infrastructure/pg_repository.go:136-149 | Likewise; the caller no longer holds the task |
| Queue.QueueService.constructor | internal/queue/application/service.go:19-27 | An empty owner is replaced, so no service settles with the owner unclaimed rows carry |
| Queue.QueueService.Enqueue | internal/queue/application/service.go:29-47 | A fresh pending row with five attempts under a free id, column by column, or no change |
| Queue.QueueService.Fail | internal/queue/application/service.go:67-80 | Read, decide, write: whenever the write takes effect the row has an attempt more and the cause, failed for good with the last attempt and pending for the backoff otherwise, and only for the owner of the claim |
| Queue.DecisionFitsRow | internal/queue/application/service.go:67-80 | The Go decision and the SQL CASE agree on every running row |
| Queue.QueueService.HandleOne | internal/queue/application/service.go:99-108 | One turn of the loop: a counted task was completed just now, its other columns as they were, and never counted before; a handler's failure leaves its cause, its attempt and its delay on the row |
| Queue.QueueService.Handle | internal/queue/application/service.go:94-111 | The tasks are exactly what the owner holds right after the poll and did not before, due rows of the topic in order and none left out below the limit; the count is that of their handler successes when nothing gets lost, and then none stays held; every counted task was completed by this call, and the ErrNotFound branch is dead |
| Queue.HandleResult | internal/queue/application/service.go:94-111 | Completed tasks are handler successes, all of them when no statement is lost, and are completed in the table with all else unchanged; failures cost an attempt; and none stays held when nothing is lost |
| Backoff.BackoffExact | internal/notification/application/service.go:161-167 | The int64 delay equals min(2^a, 300) seconds if and only if bit 54 - a of 5^9 is clear |
| Backoff.BackoffRange | internal/notification/application/service.go:161-167 | Exact and positive for all a <= 33; negative at 34 |
| Backoff.BackoffMonotone | internal/queue/application/service.go:75-79 | Positive, monotone and capped for 0 <= a <= 33 |
| Notification.RequeueShieldsFromFail | internal/notification/application/service.go:102-119 | Requeue then FailTask changes nothing beyond the requeue, whatever runs in between, iff the requeue was executed |
| Notification.Service.EnqueueAlert | internal/notification/application/service.go:66-91 | One stored task per channel, in order, up to the first that cannot be stored: each insert adds to the table it meets one row with the alert, rule, channel and payload given, under an id that was free |
| Notification.Service.ProcessTask | internal/notification/application/service.go:116-143 | A task that is not due is requeued for its due time, unsent and uncharged; a due one succeeds iff its delivery does, and its failure names the cause |
| Notification.Service.FailAfter | internal/notification/application/service.go:102-106 | FailTask takes effect iff executed on a task still held, and leaves it with the attempt charged, the cause, and the backoff of its polled attempts |
| Notification.Service.ProcessBatch | internal/notification/application/service.go:93-114 | The tasks are exactly what the worker holds right after the poll and did not before, due and cooled down, in order and none left out below the limit; the count is that of the due ones delivered when nothing gets lost, and then none stays held; every counted task was completed by this call |
| Notification.BatchResult | internal/notification/application/service.go:93-114 | Completed tasks were due and delivered, all of them when nothing is lost, their rows otherwise unchanged; charged ones failed, and when nothing is lost they are exactly the due ones that failed |
| Notification.PolledTasksAreDue | internal/notification/application/service.go:116-119 | With a clock that does not run back, a polled task is due and the requeue branch does not fire |
| Template.ReplaceFillsKey | internal/notification/application/service.go:169-179 | One ReplaceAll fills exactly the holes of its key, wherever no other text starts a match |
| Template.RenderTemplate | internal/notification/application/service.go:169-179 | The result is the chain of replacements in some order of the payload; for a peaceful payload it is the simultaneous substitution |
| Template.PlaceholderIsFilled | internal/notification/application/service.go:169-179 | A placeholder as operators write it gives way to the value of its key, and the text around it stays |
| Template.ConfluentWhenPeaceful | internal/notification/application/service.go:169-179 | All orders fill all templates like a simultaneous substitution if and only if no value carries another key's marker or ends in a beginning of it, unless that key stands for its own marker; and exactly then any two orders fill all templates alike |
| Template.TwoKeys | internal/notification/application/service.go:169-179 | The same for two keys filled one after the other, in that order |
| Template.OrderMattersForPlaceholders | internal/notification/application/service.go:169-179 | A value that is another key's placeholder: the two orders of the payload give two different texts |
| Labels.SortedKeys | internal/common/labels.go:27-34 | The one sorted listing of the keys, for every iteration order |
| Labels.LeqDecides | internal/common/labels.go:27-34 | The order it is sorted by: a prefix first, and otherwise by the first character that differs |
| Labels.String | internal/common/labels.go:36-46 | The print is a function of the map alone |
| Labels.PrintRoundTrip | internal/common/labels.go:36-46 | Reading the print back gives the labels if and only if keys have no '=' or ',' and values no ',' |
| Labels.PrintHas | internal/common/labels.go:36-46 | Any other character is in the print iff it is in a key or a value |
| Labels.PrintCollides | internal/common/labels.go:36-46 | Two different label maps with the same print |
| Labels.Match | internal/common/labels.go:62-69 | True iff every matcher entry is an entry of the labels |
| Keys.FingerprintOf | internal/alert/domain/types.go:96-105 | The fingerprint is tenant, rule, scope or group-by scope, and label print, joined by '::' |
| Keys.BuildScope | internal/alert/application/evaluator.go:244-253 | Computes the group-by scope |
| Keys.ScopeByKeys | internal/alert/application/evaluator.go:244-253 | The scope key by key, a missing label reading as nothing |
| Keys.FingerprintRoundTrip | internal/alert/domain/types.go:96-105 | The fingerprint can be read back iff tenant and rule are separable by '::', the scope has no '::{' in it, and the labels are clean |
| Keys.FingerprintInjective | internal/alert/domain/types.go:96-105 | In that class two alerts share a fingerprint iff they are the same |
| Keys.ColonsInScope | internal/alert/domain/types.go:96-105 | A brace-free scope with a '::' inside is in that class although it is not separable, such as one from an ARN or an IPv6 address |
| Keys.FingerprintCollides | internal/alert/domain/types.go:96-105 | A colon at the edge of a field makes two alerts share a fingerprint |
| Keys.DedupeRoundTrip | internal/ingestion/domain/types.go:108-116 | The dedupe key can be read back iff the fields before the text, label keys and values included, have no '|' and the labels are clean |
| Dedupe.Dedupe | internal/ingestion/application/service.go:97-135 | For every schedule of the goroutines and any table changes meanwhile: distinct keys from the input, every key missing throughout is kept, and at most three moves per event |
| Dedupe.FlownKeepsInv | internal/ingestion/application/service.go:97-135 | seen is the keys of out, keys are distinct and every finished goroutine's key is kept or was found, at each point of each schedule |
| Dedupe.NextMove | internal/ingestion/application/service.go:104-127 | Any unfinished goroutine can move, and less is left to do afterwards |
| Dedupe.Landed | internal/ingestion/application/service.go:128-134 | Every schedule ends within three moves per event, and one that ends without a query error holds the promised result |
| Dedupe.StableTableGivesOneAnswer | internal/ingestion/application/service.go:97-135 | While nobody else writes, every schedule keeps exactly the keys not stored and returns the same count |
| Ingestion.IntakeLoop | internal/ingestion/application/service.go:33-49 | The accepted events, in order, each with the key of its filled form |
| Ingestion.IntakeMeans | internal/ingestion/application/service.go:33-49 | Which events are taken in, by source, type, number, text and sampler slot, in order, and what they are then: what they leave open comes from the batch or the clock, the rest stays |
| Ingestion.KeysTellEventsApart | internal/ingestion/domain/types.go:108-116 | Two events share a dedupe key iff they agree in tenant, source, type, labels and text, in the class of DedupeRoundTrip |
| Ingestion.DedupeFingerprint | internal/ingestion/domain/types.go:108-116 | The dedupe key is tenant, source, type, label print and text, joined by '|' |
| Ingestion.PGRepository.InsertBatch | internal/ingestion/infrastructure/pg_repository.go:24-36 | All or nothing: the table is as before or holds the whole batch, and an error leaves the batch only when just the acknowledgement of the commit is lost |
| Ingestion.InsertAllMeaning | internal/ingestion/infrastructure/pg_repository.go:46-55 | Keys and ids stay unique, old rows stay in place, the keys stored are the union, and no more rows are added than events given |
| Ingestion.InsertKnownKeys | internal/ingestion/infrastructure/pg_repository.go:46-55 | Inserting stored keys again changes nothing |
| Ingestion.Service.IngestBatch | internal/ingestion/application/service.go:33-67 | With other ingesters running: unique keys kept, rows added <= count returned, and an error adds no rows of its own unless only the acknowledgement of the commit is lost; while its queries find the same keys it returns the number of different tenant, source, type, labels and text among the accepted events that are not known from within the window |
| Ingestion.Service.Ingest | internal/ingestion/application/service.go:69-87 | A successful call leaves its key stored, and adds at most its own row; it is refused iff source, type, number or text are not in order |
| Ingestion.AcceptedKeysAreStored | internal/ingestion/application/service.go:33-67 | After a batch went through every accepted key is in the table |
| Ingestion.ReplayBringsNothingNew | internal/ingestion/application/service.go:89-95 | A second ingestion, whenever it comes after the first, asks for no new key iff no undated event depends on the sampler |
| Ingestion.ReplayLeavesTable | internal/ingestion/application/service.go:33-67 | Replaying such a batch at any later time leaves the table unchanged |
| Ingestion.ReplayReportsNothing | internal/ingestion/application/service.go:33-67 | Ingest a steady batch and ingest it again while the rows that hold its keys are inside the dedupe window: the replay reports 0 |
| Ingestion.RecentKeysAreDropped | internal/ingestion/infrastructure/pg_repository.go:57-68 | Dedupe lets nothing through that every query finds recent |
| AlertTable.UpsertKeepsInv | internal/alert/infrastructure/pg_repository.go:27-45 | An upsert keeps one row per fingerprint, no pending row, and resolve times exactly on resolved rows |
| AlertTable.CasKeepsInv | internal/alert/infrastructure/pg_repository.go:99-121 | So does a compare-and-set along an edge of the transition table |
| AlertProtocol.RunKeepsInv | internal/alert/infrastructure/pg_repository.go:24-121 | The tables, and what every session has read, stay consistent in every interleaving; no alert goes away and no counter runs back |
| AlertProtocol.ReachableAlerts | internal/alert/infrastructure/pg_repository.go:34-43 | In every reachable state: never pending, resolved_at set iff resolved, acknowledged and silenced carry their times, fingerprints are unique |
| AlertProtocol.StatusMovesAlongEdges | internal/alert/infrastructure/pg_repository.go:34-43 | Every status change is an edge of ValidateTransition: an evaluation only re-fires resolved or silenced alerts, so it never un-acknowledges, and an operator moves firing, acknowledged and silenced ones to another of resolved, acknowledged and silenced |
| AlertProtocol.VersionTellsChanges | internal/alert/infrastructure/pg_repository.go:34-43 | Between any two moments a row changed iff its version did; counters never run back |
| AlertProtocol.Books | internal/alert/infrastructure/pg_repository.go:24-121 | Over any run: fired_count = upserts of the fingerprint, version = fired_count + won updates, observation rows = fired_count - upserts in flight or given up, and likewise for transition rows |
| AlertProtocol.QuietBooks | internal/alert/infrastructure/pg_repository.go:24-130 | Once nobody is at work and nobody gave up: one observation per upsert, and one transition row per won update of its kind |
| AlertProtocol.FiringIsLoggedOnce | internal/alert/infrastructure/pg_repository.go:83-85 | The pending->firing rows of an alert, with those in flight or given up, are the re-selects that found it new, and there is at most one |
| AlertProtocol.FiringNeedsAnUntouchedInsert | internal/alert/infrastructure/pg_repository.go:83-85 | A re-select finds the alert new iff its own session inserted it and no upsert or won update has touched it since |
| AlertProtocol.OwnWriteIsInTheTable | internal/alert/infrastructure/pg_repository.go:111-119 | Right after a session's write the table holds its row: with the goal of its won update, or firing or acknowledged after its upsert |
| AlertProtocol.AnswersFollowOwnWrites | internal/alert/application/service.go:58-99 | In every interleaving the row a call returns is the row of its own write or a later state of it, and its version tells which |
| AlertHistory.RowTellsItsSteps | internal/alert/infrastructure/pg_repository.go:27-119 | In any run: value, message and firing time of a row are those of the last upsert of its fingerprint, identity, key and start those of the first; acknowledge, silence and resolve times are those of the last update of their kind that won, and updated_at that of the last write |
| AlertHistory.ObservationsTellUpserts | internal/alert/infrastructure/pg_repository.go:71-82 | The observation log grows by one row per third statement of an evaluation, with the alert, value and time of that session's own upsert, and by nothing else |
| AlertService.PlayIsRun | internal/alert/infrastructure/pg_repository.go:24-130 | What the other sessions do before a statement of this one is part of a protocol run and takes no step of this session |
| AlertService.PGRepository.WriteRow | internal/alert/infrastructure/pg_repository.go:27-45 | The upsert statement, insert or CASE, as the protocol's step; the row it leaves carries the value, message and time of the evaluation, and is inserted iff no alert had the fingerprint |
| AlertService.PGRepository.UpsertAlert | internal/alert/infrastructure/pg_repository.go:24-87 | The steps of one session, other sessions between them: a failed statement ends the call, and what was done before stays, except that a lost firing row goes unnoticed |
| AlertService.PGRepository.Transition | internal/alert/infrastructure/pg_repository.go:99-121 | Compare-and-set and log row as steps of the session, with the outcomes Invalid, Conflict, Storage and Ok |
| AlertService.Service.ApplyEvaluation | internal/alert/application/service.go:22-56 | One upsert of the fingerprint, which leaves the alert firing or acknowledged with the value, message and time given, and creates it iff no alert had the fingerprint; the row returned is that one or, with other sessions in between, a later state of it |
| AlertService.Service.Operate | internal/alert/application/service.go:58-99 | The row met by the call's first read decides: NotFound iff there is none of that id and tenant, Invalid iff it is resolved and the goal another, the row itself if the goal is reached, and the compare-and-set otherwise; on success the goal was reached, with its time, and the row returned is that one or, with other sessions in between, a later state of it |
| AlertService.Service.Resolve | internal/alert/application/service.go:58-71 | The same with the goal resolved |
| AlertService.Service.Acknowledge | internal/alert/application/service.go:73-85 | The same with the goal acknowledged |
| AlertService.Service.Silence | internal/alert/application/service.go:87-99 | The same with the goal silenced |
| AlertReplay.LogTellsTheAlert | internal/alert/infrastructure/pg_repository.go:117-130 | As long as nobody writes an alert while a log row of it is owed, and none is lost, its log replays it, whatever goes on elsewhere: from pending->firing on each row continues the one before or a re-fire, and so does the current status |
| AlertReplay.InterleavedLogMisleads | internal/alert/infrastructure/pg_repository.go:111-120 | Two operators on one alert at once: a run with every statement executed after which the log does not replay the alert |
| Conditions.EvaluateCondition | internal/alert/application/evaluator.go:131-166 | Computes the verdict that the lemmas below explain, for every condition type; missing parts never match |
| Conditions.EvaluateCompound | internal/alert/application/evaluator.go:168-189 | The loop with its early exit for or, and its last value for and, computes the same verdict |
| Conditions.ReportsTheField | internal/alert/application/evaluator.go:206-223 | Over the numbers of a group: count, sum, min, max, latest and by default avg report the number, total, least, greatest, last and mean of them |
| Conditions.ComparesTheReport | internal/alert/application/evaluator.go:225-242 | The six comparisons between the value reported and the bound, equality within 10^-9, and no match under an unknown operator |
| Conditions.ExtremesQuantify | internal/alert/application/evaluator.go:206-242 | max > b iff some number exceeds b, max <= b iff all stay within it, and so on for the four comparisons of max and of min |
| Conditions.OtherLeavesAreThresholds | internal/alert/application/evaluator.go:136-153 | A window is a threshold on its own field and value, a percent on the value given or else its percentage as a fraction |
| Conditions.ChangeIsThreshold | internal/alert/application/evaluator.go:154-163 | A change is a threshold on its percentage of the very value it looks at, or else on its absolute value |
| Conditions.CompoundReports | internal/alert/application/evaluator.go:168-203 | An or reports its first child that matches, any other logic the value of its last child; a child is judged by its window, percent, change or children, in this order |
| Conditions.VerdictIsMeaning | internal/alert/application/evaluator.go:131-189 | The verdict is the Boolean meaning of the tree, and a match reports the value of a leaf that holds |
| Conditions.ComplementNegates | internal/alert/application/evaluator.go:225-242 | Complementing an operator negates its test iff the operator is a known one |
| Conditions.NegationTurnsVerdict | internal/alert/application/evaluator.go:168-189 | Complementing all operators and swapping and with or turns the verdict around |
| Rules.ValidMatchIsWitnessed | internal/rule/application/service.go:169-196 | A match of a valid rule is never vacuous |
| Rules.ValidRulesCompareSomething | internal/rule/application/service.go:169-196 | A valid rule has something to compare unless its type is unknown, and then it never matches |
| Rules.RefusedWhen | internal/rule/application/service.go:169-196 | A rule is refused iff its name is blank or the part its type compares is missing |
| Rules.NormalizeFills | internal/rule/domain/types.go:93-138 | A new rule needs name and source; the defaults of all else; and it is evaluated iff it is not created paused |
| Rules.MergingComposes | internal/rule/application/service.go:42-84 | Merging two patches one after the other is merging the second laid over the first; merging one twice is merging it once |
| Rules.UpdatesCompose | internal/rule/application/service.go:37-91 | Two updates store what one with the second patch laid over the first stores, up to one version, provided the first is not refused |
| Rules.IntermediateMustBeValid | internal/rule/application/service.go:37-91 | Two patches that are refused one by one and stored together |
| Rules.UpdateAgain | internal/rule/application/service.go:37-91 | Repeating an update stores the same rule under the next version |
| Rules.OnlyPausingStopsEvaluation | internal/rule/application/service.go:37-91 | An update takes a rule out of evaluation iff it sets the mode to paused |
| Rules.StoringKeepsRule | internal/rule/infrastructure/pg_repository.go:46-69 | Storing whole seconds keeps a rule valid; exactly the windows below a second are lost |
| Rules.PGRepository.Create | internal/rule/infrastructure/pg_repository.go:24-44 | Refuses a known id or a taken name |
| Rules.PGRepository.Update | internal/rule/infrastructure/pg_repository.go:46-69 | Overwrites the row of the tenant, whatever its version |
| Rules.Service.Create | internal/rule/application/service.go:22-35 | Stores only valid rules; refuses one as invalid iff it cannot be normalized or is not valid, and for a known id or a name taken in its tenant |
| Rules.Service.Update | internal/rule/application/service.go:37-91 | Merges field by field, validates and writes: every stored rule stays valid, other sessions running between read and write |
| Rules.Service.Pause | internal/rule/application/service.go:109-123 | The rule is not evaluated any more; stored rules stay valid |
| Rules.Service.Enable | internal/rule/application/service.go:125-139 | The rule is evaluated again; stored rules stay valid |
| Rules.Service.SetMode | internal/rule/application/service.go:141-160 | Known modes only; the rule is evaluated iff it is not paused |
| Silences.Normalize | internal/silence/domain/types.go:25-47 | Refuses exactly the silences that would not end after their start |
| Silences.Matches | internal/silence/domain/types.go:49-63 | In force strictly between its ends, for its rule, scope and matchers |
| Silences.EffectiveWhenLongEnough | internal/silence/domain/types.go:49-63 | A silence can take effect at some instant iff more than one tick lies between its ends |
| Silences.PGRepository.ListActive | internal/silence/infrastructure/pg_repository.go:78-93 | Exactly the rows of the tenant that pass the prefilter |
| Silences.Service.IsSilenced | internal/silence/application/service.go:57-69 | True iff some silence of the tenant is on, strictly between its ends, and names no other rule, scope or label: the prefilter loses nothing |
| RuleEvaluation.Evaluator.Raise | internal/alert/application/evaluator.go:93-118 | One match, with other sessions at work: one upsert by this session, with the match's value, text and time, created iff it inserted the alert; silenced as a scan at that time says; and iff not, one fresh task per channel, in order, about the alert returned |
| RuleEvaluation.Evaluator.EvaluateRule | internal/alert/application/evaluator.go:64-121 | Exactly the matching aggregates are reported, in order; a dry run touches nothing; otherwise this session's upserts are the matches, silenced or not, each with its value and text, and its tasks are those of the unsilenced matches, channel by channel, each about the alert its match names, with other sessions at work throughout; on an error its upserts are those of a prefix of the matches |
| RuleEvaluation.TellableKeysDiffer | internal/alert/application/evaluator.go:244-253 | Different clean labels give different fingerprints whenever neither group-by scope opens a label print with '::{' |
| RuleEvaluation.ScopeMustNotOpenAPrint | internal/alert/application/evaluator.go:244-253 | A group-by value with '::{' inside: two clean label sets with one fingerprint |
| RuleEvaluation.EachAlertFiresOnce | internal/alert/application/evaluator.go:77-99 | One evaluation upserts each alert row at most once, also when it stops with an error |

## Left out

- HTTP and gRPC adapters, middleware, metrics, senders, configuration, migrations and wiring: input, output and plumbing.
- JSON encoding of labels, payloads and conditions, and the texts that the evaluator formats: they are parameters, or equal by assumption to what they encode.
- Generated ids and trace ids are parameters; where two of them collide the model takes the error path of the primary key, except that observation and transition rows are assumed to bring fresh ids of their own.
- List, count and history queries, pagination, channels, templates, schedules, escalation and audit records: they would add only easy members.
- The incident service: its updates carry no guard that decides a lifecycle.
- EvaluateAll and shardSkip: a loop over the rules that always skips the same ids, so it does not promise that every enabled rule is evaluated.
- QueryAggregates: the aggregates of one evaluation are a parameter; that GROUP BY makes their labels distinct is the premise of `RuleEvaluation.EachAlertFiresOnce`, and that each sums up the numbers of its group that of `Conditions.ReportsTheField` and `Conditions.ExtremesQuantify`.
- The severity of an alert, which is always warning, and the labels, sequence and source event of an observation.
- TouchAlert: nothing calls it, and it would count a firing without an observation.
- Lease expiry: a poll asks for pending rows only, so an expired lease on a running row is never taken over; no redelivery after a crash is claimed.
- Rounding and NaN of floating point, and the microsecond rounding of stored times. Stored integers are unbounded apart from the backoff arithmetic.
- LeaseRepository.PGRepository.Poll: one statement of the class, because LeaseProtocol proves that the transaction refines it; the two tables share the generic class, their differing columns being its data.
- Notification.Service.ProcessBatch: the error of a channel look-up and of a send are one verdict, and the two clock readings inside FailTask are one.
- Template.RenderTemplate: nothing is said for keys with braces, nor for templates with "{{" outside a placeholder or a '{' right before one.
- Dedupe.Dedupe: the two looks at the shared map are atomic because they hold the mutex, and a query sees the keys of one moment.
- Ingestion.Service.IngestBatch: the insert transaction is atomic against other inserts; the evaluation items enqueued after it are not modelled.
- AlertReplay.LogTellsTheAlert: actor, reason and trace of a log row are not modelled; `AlertReplay.InterleavedLogMisleads` shows that writers of one alert must not overlap.
- AlertService.PGRepository.Transition: called as the services call it, right after the read of `from`; no service asks for the status firing.
- Silences.PGRepository.ListActive: not the order of the list, which IsSilenced does not depend on.
- RuleEvaluation.Evaluator.EvaluateRule: the counts of matches and tasks are for evaluations that return no error; the upserts are told for failed ones too. The audit records are left out.
- Rules: escalation steps, and the conversion of a negative duration, which no call stores.
