# Verification of the eventflow outbox

A Dafny model of eventflow's transactional outbox and what surrounds it: ingestion of events, the table that
any number of workers drain, the publisher chain, the backoff, and the lifecycle of a worker. `dafny verify
dfyconfig.toml` checks the whole project.

## How the model is built

- `Protocol` is the outbox as a transition system. A row is `PENDING`, `PROCESSING`, `PUBLISHED` or `CLOSE`; a worker
  is the rest of its batch (private copies of rows, possibly out of date) and where it stands with the first event.
  One action is one atomic statement, one answer of the publisher, or one step of the surroundings: arrival of a row, the
  clock, a worker that gives its batch up. `Exec` runs a schedule from the empty database, so every theorem about
  `Exec(cfg, run)` holds for every interleaving of any number of workers, with crashes, lost marks and reclaims. The
  tally of a row (claims, acknowledgements, refusals, closes, reclaims, drops) is history only: no action looks at it.
- A worker reclaims before it claims, in the same goroutine, so in the model it reclaims only while it holds nothing.
- NOW() is the start of a transaction, so statements carry a time that may lie before the clock. Single-statement updates
  are atomic. A statement may fail without effect (`MarkError`) or take effect while its answer is lost (the plain mark).
- `Agreement` and `Accounting` are the inductive invariants; `Guarantees`, `Draining`, `Timing` and `Injection` draw the
  conclusions; `Tightness`, `TimingLimits` and `InjectionLimits` build schedules that reach the bounds and so decide
  exactly when a promise holds.
- `ClaimLocks` splits a claim into locking one row at a time among other claims, and shows that nothing is lost by treating
  it as one step. `Repository` is the repository as a class; `Worker` is the batch loop over it, with the rest of the fleet
  acting between its calls, proved to be one particular schedule of the protocol. `Moves` says what a schedule does to the
  rows one worker was handed: each meets one fate, a mark call or being given up.
- `Ingestion` is the handler and its transaction, alone and interleaved; `Pipeline` joins it to the outbox: from an accepted
  event to an acknowledged message.
- `Lifecycle` is the compare-and-swap state; `Shutdown` is Run with its watcher, over an outbox in which the process calls
  make this worker's moves and the others go on with theirs; `Fleet` is all of them going down. `Retry`, `Kafka`, `Bench`, `Registry`,
  `Decimal` and `SplitList` are the smaller components.

## Where code and documentation differ

- TESTREADME.md lists as an invariant that a CLOSE row has exactly `maxRetries` attempts. With two or more workers and
  reclaiming on, a stale copy can charge an attempt twice: `Tightness.ClosedRowsAreExactWhen` gives the configurations in
  which the check holds, `Guarantees.RetryBudget` the bound that always holds, `Timing.TimelyGuarantees` the timing under
  which it holds in spite of reclaims.
- The configuration comment asks the stale timeout to exceed the longest publish, and the start-up warning compares it with
  the shutdown timeout. What it has to exceed is the claim plus a whole batch of deliveries, unless there is one worker only
  (`TimingLimits.LiveRowsAreSafeWhen`).
- The comment on RetryDelay says the delay is base × 2^(retry-1) capped at the maximum. If the doubled base is one below
  the maximum the code uses the maximum (`Retry.DocumentedExactlyWhen`; base 1, maximum 3, second retry).
- ErrShutdownTimeout is described as in-flight work having been cancelled. It is returned exactly when the timer has expired
  before Run returns (`Shutdown.TimeoutExactlyWhen`), also when the last batch had ended by then
  (`Shutdown.TimeoutWithoutLoss`); rows are lost to the timeout, given up or with a broken mark, only if a process call is
  under way after that (`Shutdown.LossNeedsExpiry`), and then they can be (`Shutdown.OpenBatchCanBeLost`).
- ARCHITECTURE.md promises that every ingested event reaches Kafka at least once. An event whose budget is used up is
  closed instead (`Pipeline.NeverArrives`); the promise holds exactly as long as no row is refused more often than
  `maxRetries` (`Pipeline.AllArriveWhen`).

## Model

| member | source | states |
|---|---|---|
| Guarantees.DuplicateBound | internal/event/application/outbox_worker.go:246-385 | over every schedule, an event is acknowledged at most once more than its row was reclaimed, less what is still open, refused, pending or closed |
| Guarantees.AtMostOnceWithoutReclaim | internal/event/application/outbox_worker.go:216-219 | with a non-positive stale timeout no event is acknowledged twice |
| Tightness.DuplicateBoundIsTight | internal/platform/postgres/outbox_repository.go:148-198 | for every n, a worker that crashes between acknowledgement and mark delivers an event n + 1 times over n reclaims |
| Guarantees.RetryBudget | internal/event/application/outbox_worker.go:278-327 | attempts exceed the budget by at most the other workers and at most the reclaims; claims are bounded accordingly |
| Tightness.RetryBudgetIsTight | internal/platform/postgres/outbox_repository.go:240-249 | for every n below the number of workers, n reclaims can close a row n attempts beyond its budget |
| Tightness.ClosedRowsAreExactWhen | TESTREADME.md:125-127 | "a CLOSE row has exactly maxRetries attempts" holds for all schedules iff there is one worker, no reclaiming, no retry budget, or nothing is ever claimed |
| Guarantees.ClosedLedger | internal/event/application/outbox_worker.go:277-309 | a closed row used its budget and kept its error; if never reclaimed it took exactly maxRetries + 1 claims and refusals and no acknowledgement |
| Guarantees.FailureLedger | internal/platform/postgres/outbox_repository.go:240-287 | recorded attempts leave their error, never outnumber refusals, a row closes at most once, and an unreclaimed row at rest recorded every refusal |
| Guarantees.PublishedMeansAcknowledged | internal/platform/kafka/publisher.go:127-141 | a PUBLISHED row has an acknowledged message with its event_id as key and its payload as value |
| Guarantees.NothingElsePublished | internal/platform/kafka/publisher.go:110-137 | every acknowledged message is the message of a row, with that row's payload |
| Guarantees.StatusEdges | internal/platform/postgres/outbox_repository.go:200-310 | which action may take which edge; only an acknowledged MarkPublished leaves CLOSE, nothing leaves PUBLISHED, reclaim keeps attempts |
| Guarantees.NothingLost | internal/platform/postgres/outbox_repository.go:161-310 | rows are never removed, identities and payloads never change, attempts never fall, PUBLISHED is final |
| Agreement.AlwaysConsistent | internal/platform/postgres/outbox_repository.go:66-145 | workers' copies agree with the table except for attempts they are behind on; the row invariants hold in every reachable state |
| Accounting.AlwaysBalanced | internal/event/application/outbox_worker.go:264-384 | claims cover outcomes, refusals cover marks, claims are paid for by attempts and reclaims, in every reachable state |
| Draining.WorkIsBounded | internal/event/application/outbox_worker.go:246-385 | the workers' steps plus the work left never exceed what ingestion and reclaims supplied |
| Draining.StuckMeansDone | internal/event/application/outbox_worker.go:184-210 | no claim, answer, due mark or reclaim is possible any more iff the fleet is idle and every row is PUBLISHED or CLOSE, save given-up rows without reclaiming |
| Draining.AlwaysAccounted | internal/event/application/outbox_worker.go:265-272 | a PROCESSING row is in a worker's hands or a delivery of it was given up |
| Timing.NoLiveRowReclaimed | internal/platform/postgres/outbox_repository.go:165-183 | if claim plus full batch fit in the stale timeout, whatever a reclaim frees is in nobody's hands, and no row is in the hands of two workers |
| Timing.TimelyGuarantees | internal/platform/postgres/outbox_repository.go:116-126 | then the budget holds exactly in spite of crashes, and redeliveries are paid for by given-up deliveries |
| TimingLimits.LiveRowsAreSafeWhen | internal/config/config.go:109-113 | live rows are safe from reclaiming iff the stale timeout exceeds the claim plus batchSize deliveries (or nothing is reclaimed or claimed, or one worker is alone) |
| ClaimLocks.LocksRefineClaim | internal/platform/postgres/outbox_repository.go:36-139 | every schedule of row locks, skips, commits and rollbacks is a schedule of the protocol with atomic claims |
| ClaimLocks.CommitNeverFails | internal/platform/postgres/outbox_repository.go:116-139 | the rows a claim has locked are still claimable whenever it commits |
| ClaimLocks.ConcurrentClaimsDisjoint | internal/platform/postgres/outbox_repository.go:48-54 | open claims hold disjoint sets of distinct rows within the limit |
| ClaimLocks.OldestFirst | internal/platform/postgres/outbox_repository.go:49-53 | a row claimable at the query is taken, was passed over, or is no older than any row taken when the limit was reached |
| ClaimLocks.SkippedForCause | internal/platform/postgres/outbox_repository.go:49-53 | a candidate is taken iff it is still claimable and no other claim holds it |
| Repository.OutboxRepository.ClaimPending | internal/platform/postgres/outbox_repository.go:22-146 | only rows that were PENDING and due are claimed; exactly they are stamped, and returned field by field as PROCESSING copies; which fault breaks it off, and that nothing has changed then unless only COMMIT's answer was lost |
| Repository.OutboxRepository.Select | internal/platform/postgres/outbox_repository.go:36-54 | the query's answer: distinct rows that are PENDING, due and not locked, oldest first, as many as the limit allows; what is left behind is no older |
| Repository.OutboxRepository.ReclaimStale | internal/platform/postgres/outbox_repository.go:161-198 | exactly the unlocked PROCESSING rows with no stamp or one as old as the timeout go back to PENDING, due now and unstamped, and are counted |
| Repository.OutboxRepository.MarkPublished | internal/platform/postgres/outbox_repository.go:200-232 | unguarded by status: published now, nothing else touched; error iff the statement failed or the row is missing |
| Repository.OutboxRepository.MarkFailed | internal/platform/postgres/outbox_repository.go:234-273 | guarded by PROCESSING: PENDING with one attempt more, this error and this next time, nothing else touched; error iff failed or not PROCESSING |
| Repository.OutboxRepository.MarkClose | internal/platform/postgres/outbox_repository.go:275-310 | guarded by PROCESSING: closed with this error, nothing else touched; error iff failed or not PROCESSING |
| Guarantees.ReclaimedOncePerClaim | internal/platform/postgres/outbox_repository.go:157-160 | however the statements of any number of workers interleave, no row is freed twice without a claim in between |
| Guarantees.ClaimsComeDue | internal/platform/postgres/outbox_repository.go:36-54 | over every schedule, the next claim of a row begins no earlier than the time it arrived, was freed, or was put back for a retry |
| Worker.OutboxWorker.Process | internal/event/application/outbox_worker.go:246-385 | whatever the others do in between, a tick is exactly the schedule TickRun; it reclaims exactly the stale unlocked rows once, before its claim (or not at all when that is off or fails); every claimed row in order gets exactly one mark call, the one its answer and attempts call for, until a context error gives the rest up; the metrics are counted |
| Worker.OutboxWorker.DeliverAll | internal/event/application/outbox_worker.go:264-384 | the batch loop: one mark call for each event in order, none from the first context error on |
| Worker.OutboxWorker.Deliver | internal/event/application/outbox_worker.go:265-383 | one event's turn: the publisher's answer and the mark action it calls for, or the end of the batch |
| Worker.OutboxWorker.RetryRefused | internal/event/application/outbox_worker.go:311-353 | the row is put back with this error, for a time within the jittered range of base × 2^attempts, capped; a failed mark counts a second failure |
| Worker.OutboxWorker.CloseRefused | internal/event/application/outbox_worker.go:277-309 | the row is closed with this error; closed is counted exactly when it was still in PROCESSING and the statement succeeded |
| Worker.OutboxWorker.ReclaimStale | internal/event/application/outbox_worker.go:216-244 | every unlocked PROCESSING row without a stamp or with one as old as the timeout is PENDING afterwards and no other row changes; off for a non-positive timeout |
| Worker.TickWalks | internal/event/application/outbox_worker.go:246-384 | a tick reclaims at most once, then claims at most once, then delivers by answer and mark in turn; it gives up only while an answer is awaited, and makes no move after that |
| Worker.AnythingInBetween | internal/event/application/outbox_worker.go:264-374 | whatever the others can do before the publish call and before the mark is part of some turn |
| Worker.AcksAreCounted | internal/event/application/outbox_worker.go:356-374 | published counts the acknowledged events whose mark went through |
| Worker.RefusalsAreCounted | internal/event/application/outbox_worker.go:274-341 | every refusal counts as a failure, and at most once more; a close is counted only for a refusal at the budget |
| Moves.EveryRowOneFate | internal/event/application/outbox_worker.go:264-384 | over any schedule, the rows handed to a worker are, in order, those it marked by one call or gave up, and those it still holds |
| Moves.MarkedUnlessAbandoned | internal/event/application/outbox_worker.go:268-272 | a worker that never gives up a batch makes a mark call for each of them |
| Moves.StaysReachable | internal/event/application/outbox_worker.go:246-385 | a tick started in a reachable state ends in one, so all guarantees carry over |
| Injection.FailingPublisher.InjectFailure | internal/event/application/failing_publisher.go:79-116 | an attempt fails iff its type is permanent, or the draw is below a positive rate and the event below its cap; it is counted, and a transient failure booked on its event |
| Injection.FailingPublisher.Publish | internal/event/application/failing_publisher.go:67-77 | an attempt reaches the wrapped publisher, whose answer is returned, unless one of these failures is injected |
| Injection.FailuresAreCapped | internal/event/application/failing_publisher.go:96-103 | no event is failed beyond the cap, and none at rate zero |
| Injection.QuietDraws | internal/event/application/failing_publisher.go:105-107 | as long as every draw is at or above the rate only permanent types fail and nothing is booked |
| Injection.LoudDraws | internal/event/application/failing_publisher.go:105-115 | as long as every draw is below the rate and there is no cap every attempt fails |
| Injection.InjectorAccounts | internal/event/application/failing_publisher.go:85-132 | attempts are injected plus forwarded; injected are the permanent ones plus those booked per event |
| Injection.ChainAccounts | cmd/outboxbench/main.go:449-452 | with an acknowledging inner publisher, attempts are injected failures plus acknowledged messages |
| Injection.PermanentNeverPublished | internal/event/application/failing_publisher.go:87-94 | a permanently failing event is never delivered nor PUBLISHED |
| Injection.PermanentClosesAfterBudget | internal/event/application/failing_publisher.go:28-29 | at the end of a schedule a permanently failing row without reclaims or given-up deliveries is closed after exactly maxRetries + 1 publish attempts, all of them injected failures |
| Injection.AlwaysSpared | internal/event/application/failing_publisher.go:23-27 | with the cap within the budget no other event is refused beyond its budget, or closed, in any interleaving |
| Injection.Converges | TESTREADME.md:81-91 | at the end of any schedule the permanently failing events are exactly the closed rows and all others are published |
| InjectionLimits.NeverClosesWhen | internal/event/application/failing_publisher.go:23-29 | a type is never closed iff it is not permanent and the cap lies within the budget (or rate is zero, or nobody claims) |
| Retry.RetryDelay | internal/event/application/retry.go:14-50 | the 64-bit loop never overflows; the delay is the base or nothing for arguments out of range, and otherwise within the half-open range of base × 2^(retry-1), capped |
| Retry.RetryLaw | internal/event/application/retry.go:8-50 | the delays the code can produce are exactly that range |
| Retry.FewDoublings | internal/event/application/retry.go:31-42 | the loop doubles at most 62 times however large the retry number is, always staying below the cap |
| Retry.ClosedForm | internal/event/application/retry.go:29-46 | the doubling loop with its jump to the cap comes to min(base × 2^(retry-1), max), but from one short of the cap it gives the cap |
| Retry.DocumentedExactlyWhen | internal/event/application/retry.go:8-13 | the loop's delay is the documented formula iff the doubled base is not one short of the cap; then it is one more, and the cap is odd |
| Retry.DocumentedFails | internal/event/application/retry.go:34-37 | for every retry from the second on and every base whose doubling fits 64 bits there is a 64-bit cap at which the formula is missed by one |
| Retry.DelayRange | internal/event/application/retry.go:11-13 | the possible delays are exactly the numbers in the upper half of the backoff, below twice its half; none exceeds the cap |
| Retry.SeparatedExactlyWhen | internal/event/application/retry.go:29-49 | consecutive delays never cross iff their halves do not overlap; so while the backoff doubles |
| Retry.BackoffMonotone | internal/event/application/retry.go:29-42 | the backoff never shrinks from one retry to the next |
| Lifecycle.LifecycleState.AdvanceState | internal/event/application/outbox_worker.go:107-121 | under arbitrary raises by others: at most four rounds, the target is reached, the state never falls |
| Lifecycle.RaceKeeps | internal/event/application/outbox_worker.go:109-121 | over every interleaving no load is ahead of the state and finished callers' targets are reached |
| Lifecycle.RaceOnlyRises | internal/event/application/outbox_worker.go:107-108 | the state never decreases |
| Lifecycle.RaceEnds | internal/event/application/outbox_worker.go:109-121 | n callers take at most 11n + 3 steps in all |
| Lifecycle.RaceEndsAtHighest | internal/event/application/outbox_worker.go:109-121 | when all are through, the state is the highest target, in whatever order |
| Shutdown.AtMostOneLateBatch | internal/event/application/outbox_worker.go:196-202 | after cancellation at most one more process call begins |
| Shutdown.EveryTickIsAProcessCall | internal/event/application/outbox_worker.go:203-204 | the schedule that Worker's tick is can be played as one process call of Run |
| Shutdown.UnmarkedExactlyWhen | internal/event/application/outbox_worker.go:264-384 | claimed rows stay without a mark call iff a batch was given up, and without an effective one iff a batch was given up or a mark failed |
| Shutdown.CleanStop | internal/event/application/outbox_worker.go:123-127 | after a nil return the forced cancellation met no process call; without publisher deadlines and lost commits every claimed row, in order, got exactly one mark call, and without failed statements an effective one |
| Shutdown.TimeoutExactlyWhen | internal/event/application/outbox_worker.go:186-194 | ErrShutdownTimeout is returned iff the timer expired before Run returned |
| Shutdown.LossNeedsExpiry | internal/event/application/outbox_worker.go:15-19 | with all other causes apart, rows are lost iff the forced cancellation made a batch be given up or broke a mark, which takes a process call under way after the expiry and ErrShutdownTimeout in the end |
| Shutdown.InFlightSurvivesCancel | internal/event/application/outbox_worker.go:131-136 | until the timer expires cancellation disturbs no process call |
| Shutdown.LifeOnlyRises | internal/event/application/outbox_worker.go:128-211 | the lifecycle state never moves backwards over any run of both goroutines |
| Shutdown.LifeTells | internal/event/application/outbox_worker.go:129-184 | the reported state is exactly how far Run and its watcher have come |
| Shutdown.WatcherEnds | internal/event/application/outbox_worker.go:142-174 | once Run has returned the watcher can always go on until it is gone |
| Shutdown.TimeoutWithoutLoss | internal/event/application/outbox_worker.go:155-194 | from every state in which the last batch has ended, ErrShutdownTimeout can still be returned, with the rows as they were |
| Shutdown.OpenBatchCanBeLost | internal/event/application/outbox_worker.go:164-172 | from every state in which the timer has expired with rows in the worker's hands, one can be lost: given up before its answer, by a broken mark after it |
| Fleet.CleanFleet | internal/event/application/outbox_worker.go:123-127 | when every worker has returned nil and nothing else failed, nobody holds a row and none is left in PROCESSING |
| Ingestion.EventIngestor.Handle | internal/event/application/ingest.go:48-120 | a command reaches the database iff it is complete, its schema registered and its properties valid; then it is stored with its outbox row or found as stored, and otherwise refused without change; and it is a schedule of its call in the interleaving machine |
| Ingestion.AdmittedExactlyWhen | internal/event/application/ingest.go:122-148 | these checks exactly, and for each the error returned when it is the first to fail |
| Ingestion.FieldsArrive | internal/event/application/ingest.go:72-83 | every field of the command is that field of the event and that member of the payload |
| Ingestion.EventRepository.Save | internal/platform/postgres/event_repository.go:24-157 | both rows or none; conflict iff the event_id is stored; pairing of the tables kept |
| Ingestion.PayloadDeterminesEvent | internal/platform/postgres/event_repository.go:113-123 | payloads are equal iff the events agree in all but row id and storage time |
| Ingestion.IdempotentIngestion | internal/event/application/ingest.go:85-114 | over every interleaving the tables pair up, one call wrote each event_id, and the others return what it stored |
| Ingestion.OnlyCommitsWrite | internal/platform/postgres/event_repository.go:36-156 | only a commit changes the tables, by one row each, and stored events never change |
| Pipeline.StoredEventsPass | internal/event/application/ingest.go:52-70 | over every schedule, whatever is stored is complete, registered and valid |
| Pipeline.OnlyCommittedIsPublished | internal/platform/kafka/publisher.go:110-113 | what reaches the broker is the payload of a stored event under its event_id |
| Pipeline.AcceptedEventsArrive | ARCHITECTURE.md:144-147 | when all is settled an accepted event was acknowledged with its stored payload, or is closed on record |
| Pipeline.AllArriveWhen | ARCHITECTURE.md:144-147 | whatever commands are sent, every accepted event is delivered in every settled schedule in which no row is refused more than r times, iff r is within the retry budget (or no command is ever admitted) |
| Pipeline.NeverArrives | internal/event/application/outbox_worker.go:277-309 | the event of any admissible command can be accepted, closed and never delivered |
| Kafka.Publisher.Publish | internal/platform/kafka/publisher.go:114-198 | nil iff the payload is sendable and acknowledged; exactly then one message is logged; cancellation counts as neither |
| Bench.BenchPublisher.Publish | cmd/outboxbench/main.go:316-355 | counts a delivery only on nil, keeping the counters in agreement |
| Bench.BenchPublisher.GetStats | cmd/outboxbench/main.go:366-388 | duplicates within the surplus of calls and zero iff there is none; the average never exceeds the maximum |
| Bench.LostMeansMissing | cmd/outboxbench/main.go:819-839 | the report's lost figure is the number of missing rows |
| Bench.NothingIsEverLost | cmd/outboxbench/main.go:839-839 | no schedule after seeding makes it differ from zero |
| Bench.CallsFollow | cmd/outboxbench/main.go:340-344 | the publisher's map grows by one call exactly at an acknowledgement of the protocol |
| Bench.DuplicatesWereReclaimed | cmd/outboxbench/main.go:377-381 | an event reported as duplicate was reclaimed at least once |
| Bench.SurplusWasReclaimed | cmd/outboxbench/main.go:366-388 | the report's total calls exceed the distinct events by at most the number of rows that reclaims freed |
| Registry.SchemaKeyInjective | internal/event/domain/registry.go:15-17 | the key determines type and version, even for types that contain ":v" and digits |
| Registry.InMemorySchemaRegistry.RegisterSchema | internal/event/domain/registry.go:19-28 | the string-keyed map keeps standing for the map keyed by the pair |
| Registry.InMemorySchemaRegistry.Get | internal/event/domain/registry.go:30-40 | answers as the map keyed by the pair |
| Registry.LastRegistrationWins | internal/event/domain/registry.go:27-39 | the last registration of a pair is the one found |
| Registry.FoundWhenRegistered | internal/event/domain/registry.go:30-40 | a pair is found iff it was registered |
| SplitList.ParseList | internal/config/config.go:334-350 | the trimmed non-empty pieces between commas |
| SplitList.ParseRoundTrip | internal/config/config.go:332-350 | entries are clean, and parsing their comma-join returns the list, for every input |
| SplitList.EveryCleanList | internal/config/config.go:332-350 | the lists the parser can return are exactly those of clean entries |
| SplitList.ParseTrims | internal/config/config.go:332-350 | entries padded with white space, and blanks between commas, parse to the entries without either |

## Left out

- The SQL engine, connection pool and migrations: tables are maps; READ COMMITTED, atomic statements, re-checking after
  locking and the unique constraints are assumed.
- Kafka's client, partitions and producer-side retries: the writer's answer is a parameter. A refused or cancelled write
  may still have reached the broker; only acknowledged messages are counted.
- The random numbers and clocks: any number below the bound, one clock that does not run backwards, marks and claims stamped
  no later than it.
- Byte-exact JSON, string lengths and text encoding: payloads are abstract objects, strings are sequences of characters.
- The validator and the concrete schemas: a parameter of ingestion.
- HTTP transport, middleware, logging, metric registration, environment reading and command wiring.
- The benchmark's reporting, throughput and waiting loop.
- Goroutine scheduling: termination is stated as bounds on steps and as what a state without further steps looks like.
- Legacy rows in PROCESSING without a stamp: the reclaim condition covers them, but schedules start from an empty database,
  where they do not arise.
- Worker.OutboxWorker.Process: the surroundings are given as a script of other actions, answers and faults; the tick's
  statements take place at one instant of the clock each.
- Pipeline.OnlyCommittedIsPublished: timestamps have one precision here. The events table keeps microseconds while the
  payload keeps what the client sent, so for finer timestamps the payload is that of the event as received, not as stored.
- Ingestion.EventRepository.Save: a clash of freshly generated row ids is a failed insert.
- Retry.RetryDelay: the random number is a natural number reduced below the bound.
