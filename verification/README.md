# A model of the cash-flow pipeline

The system records a merchant's cash entries in a ledger, announces each of
them through an outbox, and folds the announcements into daily balances on the
consolidation side. This project models that path and proves what each part
keeps over whole runs, up to three statements about all of it together: a
balance reported as definitive is the ledger's own sum; once the pipeline is
quiet every day of every merchant agrees with the ledger; and one clean
reprocessing pass over what was isolated gets it there.

Each committed database transaction is one step of a run; an error is a rollback.
So a delivery is up to four steps and a reprocessed item three, with anything else
happening between them. Where
the program updates tables in place there is a class whose methods run the same
statements in the same order (`Store`, `Repository`, `Publisher`, `Consumer`,
`Reprocessing`, `Reconciliation`, `Topology`), and each method is proved equal
to a function of the old tables. The run theorems are proved about those
functions.

| module | what it holds |
|---|---|
| `Domain`, `Fingerprint`, `Money`, `Backoff` | events, the payload fingerprint, BRL text, retry delays |
| `Projection`, `Store` | the consolidation transactions as functions, and the class that runs them |
| `Closing`, `Invariants`, `Draining`, `Runs`, `Identity`, `Capacity`, `Answers` | closing balances, totals, progress, recompute jobs, runs, which event an acknowledgement is about, when nothing overflows, what a delivery is answered |
| `Ledger`, `LedgerRuns`, `Requests`, `Repository`, `Payloads` | idempotent commands, positions, outbox, reversals, what each request becomes or why it is refused, which payloads are valid |
| `Pagination` | keyset pages under a high water |
| `Outbox`, `Publisher` | the lease protocol and one publisher pass |
| `Consumer`, `Reprocessing`, `Pipeline`, `Copies`, `Isolation`, `Pendencies`, `Recovery` | one delivery, the dead-letter pass, the whole pipeline with crashes, where each copy of a message is, what an isolated and what a retried event leaves behind, and getting it all quiet |
| `Traces`, `Window` | the pipeline as a run of the projection, the ledger's order as one within its calendar window |
| `Freshness`, `Reconciliation`, `EndToEnd` | what a balance query and a reconciliation may claim |
| `Topology` | moving a backlog between queues |

## Conventions

- Dates are days since 0000-01-01, the first date the layout can write; instants
  are nanoseconds from the zero time; a valid event's dates and instants are ones
  the text layouts can write, since events are parsed from text; "today", the clock, generated ids,
  random jitter and every failure of a database, broker or stream are inputs.
- Uuid columns are numbers on the ledger side and lower-case text on the
  consolidation side. An idempotency key stands for its hash and a request for
  its hash.
- JSON, hashing and time layouts are parameters assumed to lose nothing on what
  they can write; the fingerprint's own length-prefixed encoding is modelled and
  proved injective. `FaithfulLayouts`, `CollisionFreeFingerprint`,
  `FaithfulSetup`, `LegibleSetup` and `PrinterExists` give parameters that meet the assumptions.
- The unique indexes the code relies on are those of the migrations: the inbox
  and the position receipts on event id and on (merchant, position), one
  reversal per original, one outbox row per event id.
- Amounts are mathematical integers; a column that would leave the bigint range
  fails the transaction, as the numeric overflow error of the database does.

## What the code does not keep

Six promises fail for some inputs; each has a lemma with such inputs and the
exact condition beside it.

- An event dated after the latest row, applied while a recompute job is pending,
  takes a stale baseline that no job pending then repairs
  (`LateMaximumNeverRepaired`, `LateMaximumHappens`, over runs
  `LateRunStaysWrong`); the exact condition for one event is
  `PostKeepsClosingIff`. Nothing in the service commands calls ResumeNext, so a
  pending job stays pending in production.
- A definitive answer reads balances before progress and pending jobs, so it can
  be stale. A day's totals are, exactly when an event of that day arrived in
  between (`DefinitiveCanBeStale`, `DefinitiveAcrossReadsIff`). Its closing is,
  exactly when the row's own error differs from the net of the events dated up to
  that day that arrived in between (`ClosingAcrossReadsIff`): an event of an
  earlier day suffices (`ClosingCanBeStale`), and so does a job finished between
  the two reads with nothing arriving (`ClosingCanLagItsJob`, `ClosingLagHappens`).
- All-zero reconciliation counts do not imply a zero financial difference,
  because the day's row is not limited to the cut
  (`ZeroCountsNonzeroDifference`, `DifferenceIs`, `ReportIs`).
- The comment on dead-letter reprocessing says a row that still fails is never
  dropped. It can be (`FailingRowDropped`). When no parked payload alone would
  overflow the projection as it stands, it can be if and only if another parked
  row of its event id would be accepted by it (`FailingRowDroppedIff`). In a pipeline without forged messages that loses
  nothing (`RemovedIsHeld`).
- Retries are bounded only by attempts that could be stored
  (`RetriesFollowTheCount`). An outage that also fails those writes, which go to
  the same database, requeues without bound (`OutageNeverIsolates`).
- The ledger accepts merchant ids that the consumer's pattern refuses
  (`LedgerTakesMore`, `ConsumerIdIsLedgerId`); a payload is valid to the consumer
  if and only if its merchant's id has that pattern (`PayloadValidIff`), and a
  merchant without it never gets a balance (`OnlyUuidMerchantsAreBooked`).

Three smaller ones: messages routed to the source queue between the last read of
the drain and its unbinding stay there (`Topology.Migration.Migrate`); an outbox
mark checks the owner but not the lease's expiry, so a publisher past its lease
can still mark a row nobody else claimed (`OnlyTheHolderChanges`); and the
worker's configuration check lets a blank owner through that every claim then
refuses (`Publisher.Worker.ClaimOne`).

## Model

| member | source | states |
|---|---|---|
| `EndToEnd.DefinitiveEndToEnd` | services/consolidation/internal/application/query.go:50-82 | Over every run of the ledger and of the pipeline behind it: when the answer is definitive, applied = source = the ledger's last position, each day's credits, debits and count are the sums over the ledger's entries, and under the closing invariant the closing is the ledger's running net. |
| `EndToEnd.QuietEndToEnd` | services/ledger/internal/outbox/worker.go:94-161 | When all the ledger committed is published and consumed, and whatever was isolated has since been reprocessed, every day of every merchant has the ledger's totals and progress has reached the ledger's last position. |
| `EndToEnd.RecoveredEndToEnd` | services/consolidation/internal/reconciliation/dlq.go:48-107 | After any run in which no write of a dead letter or of its pendency failed, once everything is published, the queue is empty and nothing is with a consumer, one pass without failures makes every day of every merchant agree with the ledger; for proper ledger calls, all committed, of merchants with the consumer's id pattern whose amounts sum within int64, and payloads that parse. |
| `EndToEnd.ParkedEndToEnd` | services/consolidation/internal/reconciliation/dlq.go:48-107 | The same whatever failed during the run, if in its last state what is isolated is in the inbox or parked with payloads that parse. |
| `EndToEnd.DefinitiveClosingsEndToEnd` | services/consolidation/internal/application/query.go:50-82 | When the pipeline's run accepted no event past the maximum while a job was pending, the closing of every row of a definitive answer is the ledger's running net. |
| `EndToEnd.WindowedClosingsEndToEnd` | services/ledger/internal/domain/calendar.go:10 | The same when its deliveries came in the order of a never-decreasing "today", each dated within the window of its own. |
| `EndToEnd.ReconciledEndToEnd` | services/consolidation/internal/reconciliation/worker.go:76-166 | Over every run of the ledger and of the pipeline: a report against the ledger's own stream up to a cut counts as missing exactly the entries of that date not accepted, nothing as extra or duplicated, and its difference is the size of the net accepted beyond the cut less the net missing; zero when nothing is missing and no event of that date was accepted beyond the cut. |
| `EndToEnd.LedgerFeedsWell` | services/ledger/internal/application/service.go:382-422 | Such calls commit only valid events, no two of which share an event id or a merchant position. |
| `EndToEnd.InboxIsFaithful` | services/ledger/internal/application/service.go:382-422 | If every inbox row is a payload of the ledger's outbox, the events accepted for a merchant are that merchant's ledger position by position, entry ids included. |
| `EndToEnd.ConsumerIdIsLedgerId` | services/ledger/internal/domain/id.go:13-33 | Every id with the consumer's uuid pattern parses as a ledger id. |
| `EndToEnd.LedgerTakesMore` | services/ledger/internal/domain/id.go:13-33 | Some ledger id does not match the consumer's pattern. |
| `EndToEnd.OnlyUuidMerchantsAreBooked` | services/consolidation/internal/domain/event.go:134-173 | Over every pipeline run, a merchant for which anything was accepted has an id of the consumer's pattern; the other direction is `Payloads.PayloadValidIff`. |
| `Payloads.PayloadValidIff` | services/ledger/internal/application/service.go:382-422 | Over every run of ledger calls with generated uuids, int64 amounts and checked traceparents, an outbox payload is valid to the consumer if and only if its merchant's id has the consumer's pattern. |
| `Payloads.EveryRunIsProper` | services/ledger/internal/domain/entry.go:55-98 | Every entry and outbox row of such a run, reversals included, has a positive int64 amount, writable dates and uuid ids. |
| `Pipeline.EveryEventIsSomewhere` | services/consolidation/internal/adapters/inbound/rabbitmq/consumer.go:222-337 | Over every interleaving of single transactions of publishers, deliveries and reprocessing passes, with crashes, lost confirms, redelivery and duplicates: each committed event is unpublished, queued, held by a consumer, isolated or in the inbox; every inbox row was committed; the inbox, totals and progress satisfy the projection invariant. |
| `Pipeline.EveryRunKeepsPipeline` | services/ledger/internal/outbox/worker.go:94-161 | Every such run keeps the pipeline invariant: lease invariant, nothing the broker took is lost, deliveries on the way to an acknowledgement and items past their first transaction have their event in the inbox, no invented message, inbox row or dead letter. |
| `Pipeline.NoStepLoses` | services/consolidation/internal/adapters/inbound/rabbitmq/consumer.go:222-259 | An event in the queue, with a consumer, isolated or in the inbox is in one of those places after any step. |
| `Copies.EveryCopyIsOnce` | services/consolidation/internal/adapters/inbound/rabbitmq/consumer.go:222-259 | Over every run and for every event: copies queued, held, isolated and acknowledged add up to the copies published, and the isolated ones are exactly those a consumer rejected. |
| `Pipeline.QuietPipelineIsComplete` | services/consolidation/internal/adapters/inbound/rabbitmq/consumer.go:222-259 | With everything published, the queue empty and whatever was isolated accounted for since, the inbox holds every committed event and nothing else. |
| `Pipeline.RemovedIsHeld` | services/consolidation/internal/reconciliation/dlq.go:84-99 | In every run, whatever is interleaved with a pass, a step that removes a dead letter finds its committed event in the inbox. |
| `Recovery.CleanPassSettles` | services/consolidation/internal/reconciliation/dlq.go:48-107 | After any run over valid, non-conflicting events whose amounts sum within int64, a pass without failures over dead letters that parse puts each of their events in the inbox and changes nothing else. |
| `Recovery.CleanPassQuiets` | services/consolidation/internal/reconciliation/dlq.go:48-107 | If everything is published and consumed and what is isolated is parked or accounted for, the pipeline is then quiet. |
| `Recovery.RunIsParkable` | services/consolidation/internal/adapters/inbound/rabbitmq/consumer.go:344-372 | What is isolated is so after every run in which no write of a dead letter or of its pendency failed, over valid events whose payloads parse, once everything is published and consumed. |
| `Isolation.EveryRunKeepsIsolation` | services/consolidation/internal/adapters/inbound/rabbitmq/consumer.go:344-372 | Over every such run, whatever passes and deliveries are interleaved: each event given up on is in the inbox or has its dead letter in the table, and is in the inbox, marked pending for reprocessing, or has a copy still queued or with a consumer. |
| `Isolation.IsolatedIsParked` | services/consolidation/internal/reconciliation/dlq.go:48-82 | So with nothing queued or held, each isolated event is in the inbox or among the rows the next pass reads. |
| `Pendencies.AcknowledgedIsCleared` | services/consolidation/internal/adapters/inbound/rabbitmq/consumer.go:306-320 | In every run a delivery that was applied and clears without failing is acknowledged with its event in the inbox and no pendency of it left; no other pendency and no dead letter changes. |
| `Pendencies.ReprocessedIsCleared` | services/consolidation/internal/reconciliation/dlq.go:90-98 | In any state, the second transaction of a reprocessed item leaves no dlq pendency of its event and the third no dead letter of it, and neither touches another event's. |
| `Pendencies.EveryRunPursuesRetries` | services/consolidation/internal/adapters/inbound/rabbitmq/consumer.go:322-337 | Over every run in which no clear and no write of a dlq pendency failed, an event with a retry pendency has a copy queued or with a consumer that has neither acknowledged it nor given it up. |
| `Pendencies.NoRetryLeftBehind` | services/consolidation/internal/adapters/outbound/postgres/pending_store.go:85-97 | So once nothing is queued or held, every pendency left is one of class dlq. |
| `Traces.TraceIsRun` | services/consolidation/internal/adapters/outbound/postgres/store.go:33-137 | The projection after any pipeline run is that of the run of its Apply and ResumeNext transactions alone, in the order they committed. |
| `Identity.ApplyHolds` | services/consolidation/internal/adapters/outbound/postgres/store.go:58-71 | With a collision-free fingerprint, Apply keeps every inbox row, adds at most the delivered event, and reports success, new or duplicate, only if exactly that event is then in the inbox. |
| `Answers.EveryAnswerIsTruthful` | services/consolidation/internal/adapters/outbound/postgres/store.go:122-137 | Over every run, the answer to an accepted and to a redelivered event: source is the largest position in the merchant's inbox rows, applied the largest n with 1..n there, gap the position after it exactly when applied < source, and pending holds if and only if one of the merchant's jobs has a next date. |
| `Answers.VerdictIs` | services/consolidation/internal/adapters/outbound/postgres/store.go:33-78 | Over every run: invalid by its content alone, a duplicate if and only if the event itself is in the inbox, accepted if and only if neither its id nor its position is taken and no column overflows, a conflict otherwise. |
| `Answers.EveryRowIsWellFormed` | services/consolidation/internal/domain/event.go:134-173 | Every inbox row of every run has the one type and currency, kind credit or debit, a positive int64 amount and position, and lower-case uuids of the pattern. |
| `Answers.EveryRangeIsRecalculated` | services/consolidation/internal/adapters/outbound/postgres/store.go:95-120 | An accepted event reports the range from its own date to thirty days on, or to the merchant's latest row if that is nearer; every day of it has a row, and one new job covers what is left up to the latest row. |
| `Answers.EveryRunFits` | services/consolidation/internal/adapters/outbound/postgres/store.go:446-452 | Every column of every daily row of every run is within bigint. |
| `Runs.EveryRunKeepsInv` | services/consolidation/internal/adapters/outbound/postgres/store.go:33-137 | For any deliveries in any order with any recoveries: both inbox indexes agree, each day's totals are the fold of the accepted events, applied, source and gap describe the received positions exactly, pending jobs have days left. |
| `Invariants.ApplyKeepsInv` | services/consolidation/internal/adapters/outbound/postgres/store.go:33-137 | One Apply, whatever its outcome, keeps that invariant. |
| `Invariants.AdvanceProgressKeeps` | services/consolidation/internal/adapters/outbound/postgres/store.go:328-377 | Extending only from the previous applied position still yields the largest n with 1..n received, the maximum received, and the first gap. |
| `Invariants.ResumeKeepsInv` | services/consolidation/internal/adapters/outbound/postgres/store.go:271-310 | ResumeNext keeps inbox, totals and progress intact. |
| `Invariants.ProgressUnique` | services/consolidation/internal/adapters/outbound/postgres/store.go:328-377 | The progress row is determined by the set of received positions. |
| `Closing.ResumeKeepsClosing` | services/consolidation/internal/adapters/outbound/postgres/store.go:206-269 | Because the job with the smallest next date is taken, one block keeps every row outside the pending ranges equal to the running sum. |
| `Closing.PostKeepsClosingIff` | services/consolidation/internal/adapters/outbound/postgres/store.go:95-120 | Accepting an event keeps that property if and only if its baseline is exact or its whole block is covered by jobs already pending. |
| `Closing.PostInOrder` | services/consolidation/internal/adapters/outbound/postgres/store.go:95-120 | It is kept whenever the event is not dated past the latest row while a job is pending. |
| `Closing.PostWithinWindow` | services/ledger/internal/domain/calendar.go:55-65 | An event dated within the ledger's thirty-day window of a day no row exceeds finishes its recompute in one 31-day block. |
| `Draining.ResumeDecreases` | services/consolidation/internal/adapters/outbound/postgres/store.go:206-269 | Each ResumeNext with a pending job strictly decreases the remaining days of the pending jobs and keeps them well formed. |
| `Draining.DrainRefinesFold` | services/consolidation/internal/adapters/outbound/postgres/store.go:271-310 | Repeated ResumeNext ends with no pending job and, from the closing invariant, every closing equal to a prefix sum from scratch. |
| `Draining.LateMaximumNeverRepaired` | services/consolidation/internal/adapters/outbound/postgres/store.go:99-117 | A late event, then one past the maximum while its job is pending: that row's closing misses the late event after any number of resumes of the pending jobs. |
| `Draining.LateMaximumHappens` | services/consolidation/internal/adapters/outbound/postgres/store.go:99-117 | Any three events of ordinary amounts so dated are accepted and lead there. |
| `Runs.LateRunStaysWrong` | services/consolidation/internal/adapters/outbound/postgres/store.go:99-117 | The same over whole runs: after those three deliveries and any number of recoveries the last row's closing misses the late event. |
| `Runs.InOrderRunKeepsClosings` | services/consolidation/internal/adapters/outbound/postgres/store.go:95-120 | In every run where no event past the maximum is accepted while a job is pending, every uncovered closing is exact. |
| `Runs.InOrderRunDrains` | services/consolidation/internal/adapters/outbound/postgres/store.go:206-310 | After such a run, draining terminates and every day has the fold's totals and a closing equal to the running net of the accepted events. |
| `Runs.OrderIndependence` | services/consolidation/internal/adapters/outbound/postgres/store.go:58-137 | Two delivery sequences over the same non-conflicting events, any order and duplication, reach the same inbox, receipts, progress and daily totals. |
| `Runs.OrderIndependentClosings` | services/consolidation/internal/adapters/outbound/postgres/store.go:206-269 | Under the closing hypothesis their drained closings agree on every date both have. |
| `Capacity.FittingRunIsTaken` | services/consolidation/internal/adapters/outbound/postgres/store.go:446-452 | Valid, non-conflicting events, each merchant's amounts summing within int64, are all taken, in any order with any repetition and recoveries. |
| `Capacity.FittingRunsAgree` | services/consolidation/internal/adapters/outbound/postgres/store.go:58-137 | Order independence from those conditions on the events alone. |
| `Capacity.EveryRunIsBounded` | services/consolidation/internal/adapters/outbound/postgres/store.go:206-269 | In every reachable state, stale rows included, each closing is at most the volume of the events accepted up to its date. |
| `Capacity.PostTakes` | services/consolidation/internal/adapters/outbound/postgres/store.go:80-120 | An event whose amount fits beside the volume accepted so far overflows no column. |
| `Runs.WindowedRunNeverPends` | services/consolidation/internal/adapters/outbound/postgres/store.go:18 | Deliveries in the order of a never-decreasing "today", each date resolved against it, leave no job pending at any point. |
| `Runs.WindowedRunIsExact` | services/ledger/internal/domain/calendar.go:10 | In such a run every closing is exact after every step. |
| `Window.LedgerOrderIsWindowed` | services/ledger/internal/domain/calendar.go:55-65 | For ledger calls whose "today" never goes back, a merchant's entries in position order are such a sequence, reversals included. |
| `Window.LedgerOrderIsExact` | services/ledger/internal/domain/calendar.go:55-65 | Delivered in that order, no job is ever left pending and every closing is exact. |
| `Store.Store.Apply` | services/consolidation/internal/adapters/outbound/postgres/store.go:33-137 | The tables and outcome of the statement-by-statement transaction are those of `Projection.Apply`; invariant kept; the progress and pending flag it answers tell the positions received and the jobs left. |
| `Store.Store.Project` | services/consolidation/internal/adapters/outbound/postgres/store.go:58-137 | Filing a fresh event updates inbox, receipts, totals, closings, job and progress together, or nothing on overflow. |
| `Store.Store.ResolveDuplicate` | services/consolidation/internal/adapters/outbound/postgres/store.go:174-204 | The verdict on a clash is that of the whole transaction; with a fingerprint that tells events apart it is a duplicate exactly when the stored row is the delivered event, and a conflict exactly when it is not; a duplicate's answer has the largest position received, the largest n with 1..n received, the gap after it and whether a job is left. |
| `Store.Store.ResumeNext` | services/consolidation/internal/adapters/outbound/postgres/store.go:271-310 | The continuation transaction equals `Projection.ResumeNext` and reports whether it changed anything. |
| `Store.RecomputeBlock` | services/consolidation/internal/adapters/outbound/postgres/store.go:206-269 | The running-sum loop over a materialised block equals baseline plus prefix-sum difference on each day. |
| `Store.ContiguousFrom` | services/consolidation/internal/adapters/outbound/postgres/store.go:338-352 | The recursive position walk returns the end of the contiguous run. |
| `Store.SelectJob` | services/consolidation/internal/adapters/outbound/postgres/store.go:285-292 | The chosen job has the smallest next date, then the smallest id, among the pending ones. |
| `Fingerprint.PreimageEqualIff` | services/consolidation/internal/domain/event.go:193-220 | Two events the layouts can write have the same fingerprint pre-image if and only if their canonical fields agree, a null original reading as the empty one. |
| `Fingerprint.PreimageLists` | services/consolidation/internal/domain/event.go:202-218 | The pre-image is the writing of the thirteen canonical fields in the source's order, and of no other list of texts and numbers at the same places. |
| `Fingerprint.WordIs` | services/consolidation/internal/domain/event.go:196-200 | The eight bytes of a length or number, most significant first, are its unsigned value or its int64 in two's complement. |
| `Fingerprint.FingerprintIsCollisionFree` | services/consolidation/internal/domain/event.go:182-220 | With a collision-free hash, validated events with equal fingerprints are the same canonical event. |
| `Fingerprint.CollisionFreeFingerprint` | services/consolidation/internal/domain/event.go:193-220 | Layouts and a hash as assumed exist, and with them a fingerprint that tells valid events apart. |
| `Fingerprint.WriteEvent` | services/consolidation/internal/domain/event.go:193-220 | The field-by-field writes build exactly that pre-image. |
| `Domain.CanonicalStable` | services/consolidation/internal/domain/event.go:182-191 | Canonicalising keeps a valid event valid and is idempotent. |
| `LedgerRuns.EveryRunKeepsInv` | services/ledger/internal/application/service.go:131-177 | Over every run of commands: positions are exactly 1..last, each entry has exactly one outbox row and one completed record, reversal links are sound. |
| `LedgerRuns.RepeatIsIdempotent` | services/ledger/internal/application/service.go:240-290 | After a success, the same key later creates nothing and returns the stored response, or conflicts if the request differs. |
| `LedgerRuns.ExecuteCases` | services/ledger/internal/adapters/outbound/postgres/repository.go:27-41 | A command either commits all its rows or leaves every table as it was. |
| `LedgerRuns.EveryRunConservesReversals` | services/ledger/internal/application/service.go:201-237 | Over every run each original has at most one reversal, equal and opposite, reversals are never reversed, and a merchant's net is the signed sum of its unreversed originals. |
| `LedgerRuns.BuildFollows` | services/ledger/internal/domain/entry.go:88-98 | A built entry takes the next position, and a reversal is the opposite of an unreversed original of the same merchant. |
| `Requests.EveryEntryIsRequested` | services/ledger/internal/application/service.go:131-177 | Over every run each entry was made by one of its calls: for a creation it is a credit if and only if the lower-cased type is "credit" and a debit if and only if it is "debit", with the amount and description given, dated as asked, at most thirty days back and not in the future, or today if no date was given; a reversal names its original and is dated today; the call answered with it, recorded it under its key and announced it under its event id. |
| `Requests.EveryPayloadTells` | services/ledger/internal/application/service.go:382-422 | Every outbox payload of every run carries, field by field, such an entry and the traceparent of the call that made it. |
| `Requests.CreationVerdict` | services/ledger/internal/domain/calendar.go:55-65 | A first creation under its key is refused for its type, its currency, its amount, its date or its description, each exactly when that is wrong and nothing before it is; for its date if and only if that is more than thirty days back, in the future, or 0001-01-01; otherwise it commits. |
| `Requests.ReversalVerdict` | services/ledger/internal/application/service.go:201-237 | Over every run a first reversal under its key is refused exactly when the merchant has no such entry, it has been reversed, or it is itself a reversal, in that order; otherwise it commits. |
| `Requests.RecordIff` | services/ledger/internal/application/service.go:240-290 | Over every run a command finds a record if and only if an earlier call of the same merchant, operation and key succeeded. |
| `Requests.ValidateIs` | services/ledger/internal/application/service.go:110-130 | An input is refused for its merchant, its original's id, or its key or traceparent, in that order, exactly when that is wrong; otherwise its command carries everything it said. |
| `Requests.TraceparentIff` | services/ledger/internal/application/traceparent.go:5-19 | A traceparent is accepted if and only if it is written of lower-case hexadecimal parts of 2, 32, 16 and 2 digits whose version is not ff, whose identifiers are not all zero and, under version 00, whose flags are 00 or 01. |
| `Requests.SameIdIff` | services/ledger/internal/domain/id.go:13-33 | Two uuid texts parse to the same ledger id if and only if they differ at most in letter case. |
| `Repository.Repository.Execute` | services/ledger/internal/adapters/outbound/postgres/repository.go:27-41 | A transaction run statement by statement has the rows and result of `Ledger.Execute`, keeps the run invariant, and a new entry has the kind, amount, date and description the command asked for. |
| `Repository.Repository.Transact` | services/ledger/internal/application/service.go:240-290 | Claim, create, complete or roll back, as one function of the old rows; a new entry is what the command asked for. |
| `Repository.Repository.Create` | services/ledger/internal/application/service.go:131-177 | The body of the transaction writes position, entry and outbox row of the built entry, which is what the command asked for, or fails with its error. |
| `Repository.Repository.ClaimIdempotency` | services/ledger/internal/adapters/outbound/postgres/repository.go:46-77 | Inserts an open record for an unused key, else returns the stored one unchanged. |
| `Repository.Repository.NextPosition` | services/ledger/internal/adapters/outbound/postgres/repository.go:101-114 | Returns and stores the successor of the merchant's last position. |
| `Repository.Repository.Submit` | services/ledger/internal/application/service.go:110-130 | An input failing its checks, the strict traceparent check included, leaves every table alone; any other is one command. |
| `Pagination.PagesOverRuns` | services/ledger/internal/application/service.go:328-380 | Following cursors while a ledger run goes on: page i is the i-th slice of the first page's snapshot, with its reversals, and none past the end. |
| `Pagination.PagesAreTheSnapshot` | services/ledger/internal/adapters/outbound/postgres/repository.go:214-291 | The first n pages concatenate to the first n * limit rows of that snapshot, so ceil(rows / limit) pages give all of it, and page n > 0 exists exactly when rows remain. |
| `Pagination.SnapshotElements` | services/ledger/internal/adapters/outbound/postgres/repository.go:255-267 | The snapshot is the matching entries up to the high water, each once, in descending (date, confirmed at, id) order. |
| `Pagination.SnapshotIs` | services/ledger/internal/adapters/outbound/postgres/repository.go:255-267 | An entry is in the snapshot if and only if it is the merchant's, up to its last position and within the dates asked for; later dates come first, then later confirmations, then larger ids. |
| `Pagination.ReversalShown` | services/ledger/internal/adapters/outbound/postgres/repository.go:257-259 | A listed entry shows a reversal if and only if one was committed up to the high water. |
| `Pagination.RefusalIs` | services/ledger/internal/application/service.go:337-353 | A listing is refused exactly for a limit outside 1..100, for a cursor of another merchant, range or limit, and for one without a high water. |
| `Pagination.NextPage` | services/ledger/internal/adapters/outbound/postgres/repository.go:255-267 | A cursor read from any later tables returns the slice after it. |
| `Pagination.FrozenReversal` | services/ledger/internal/adapters/outbound/postgres/repository.go:257-259 | The reversal shown for an entry is the one visible at the high water, in any later tables. |
| `Pagination.ReadPage` | services/ledger/internal/adapters/outbound/postgres/repository.go:271-290 | The row loop over limit + 1 rows with truncation yields the page and its cursor. |
| `Outbox.EveryRunKeepsInv` | services/ledger/internal/outbox/store.go:24-133 | Over every interleaving of publishers, crashes and time: a publication within its lease is the one its row names, no row waits longer than a lease or full backoff, a published row was accepted by the broker and is unleased. |
| `Outbox.NoTwoPublishersAtOnce` | services/ledger/internal/outbox/worker.go:53-58 | Two publishers hold the same event only if one has outlived its lease, hence its publish budget plus two seconds in a valid configuration. |
| `Outbox.LiveLeaseIsExclusive` | services/ledger/internal/outbox/store.go:38-59 | No other publisher's step, nor time, touches the row of a publication within its lease. |
| `Outbox.OnlyTheHolderChanges` | services/ledger/internal/outbox/store.go:86-133 | A row changes only by a claim of a claimable row or a mark by the owner its lease names; it becomes published only by that owner after a confirm. |
| `Outbox.PublishedForever` | services/ledger/internal/outbox/store.go:90-98 | A published row is never changed again. |
| `Outbox.PublishedWasAccepted` | services/ledger/internal/outbox/worker.go:124-147 | In every run a published event was taken by the broker first. |
| `Outbox.ClaimableInTime` | services/ledger/internal/outbox/store.go:42-45 | In every run an unpublished row left alone for the longer of the lease and the maximum backoff is claimable. |
| `Outbox.BackoffIsKept` | services/ledger/internal/outbox/store.go:38-59 | After a mark that released a row with a delay, before the marking time plus the delay the row is neither leased nor published and no step leases it, whatever happens; from then on, if it was left alone, the next claim takes it. |
| `Outbox.NewRowIsClaimable` | services/ledger/internal/outbox/store.go:42-45 | A committed row can be claimed at once. |
| `Outbox.AttemptsCountPublications` | services/ledger/internal/outbox/store.go:52 | In every run a row's attempts are the publications of it that were started. |
| `Publisher.Store.Claim` | services/ledger/internal/outbox/store.go:24-84 | Takes only rows that are unpublished, have available_at <= now, are unleased or past their lease, and are not locked: at most limit, all if there are fewer, none while one earlier by (available, created, id) is left; leases each to the owner with one more attempt and touches no other; refuses a blank owner and a bad limit or lease. |
| `Publisher.Store.MarkPublished` | services/ledger/internal/outbox/store.go:86-106 | Succeeds and publishes exactly when the row is unpublished and leased to the owner. |
| `Publisher.Store.MarkFailed` | services/ledger/internal/outbox/store.go:108-133 | Releases the row with its new availability exactly in that case; refuses a negative delay. |
| `Publisher.Worker.PublishOne` | services/ledger/internal/outbox/worker.go:117-161 | Its effect is a run of the lease protocol; it reports success exactly for a confirmed publication whose mark was stored; a failed one is released with the jittered backoff of its attempts, and an interrupted or unstored one leaves its row alone. |
| `Publisher.Worker.ProcessOnce` | services/ledger/internal/outbox/worker.go:94-115 | A polling pass is a run of the lease protocol, publishes exactly processed minus failed rows, the failed ones being those not confirmed or not stored, ends when the batch is full or nothing is claimable, and stops early if and only if a claim fails or a publication is interrupted. |
| `Consumer.AckMeansHeld` | services/consolidation/internal/adapters/inbound/rabbitmq/consumer.go:271-320 | A delivery is acknowledged only if its own event is then in the inbox; any other decision leaves the projection alone, and the projection invariant is kept either way. |
| `Consumer.DeliveryIs` | services/consolidation/internal/adapters/inbound/rabbitmq/consumer.go:271-372 | Which of the three decisions a delivery gets and when; an acknowledgement clears its event's pendency, a transient failure below the maximum counts one attempt, everything else leaves a dead letter of the payload and a dlq pendency; no other event's pendency changes, and a write that fails changes nothing. |
| `Consumer.RetriesFollowTheCount` | services/consolidation/internal/adapters/inbound/rabbitmq/consumer.go:322-337 | For any series of transient failures with any further faults: requeued while the stored attempts stay below the maximum, isolated by the failure whose stored attempt reaches it, never by one that could not store its attempt. |
| `Consumer.OutageNeverIsolates` | services/consolidation/internal/adapters/inbound/rabbitmq/consumer.go:328-336 | When no attempt can be stored, every failure is requeued, without bound. |
| `Consumer.ProcessIsDeliverySteps` | services/consolidation/internal/adapters/inbound/rabbitmq/consumer.go:271-372 | Undisturbed, the single transactions the pipeline interleaves add up to processDelivery. |
| `Consumer.ProcessDead` | services/consolidation/internal/adapters/inbound/rabbitmq/consumer.go:344-372 | A delivery adds at most one dead letter, carrying its own payload and its own id. |
| `Consumer.Handler.ProcessDelivery` | services/consolidation/internal/adapters/inbound/rabbitmq/consumer.go:271-320 | The checks, Apply and their side effects in order give the tables and action of `Consumer.Process`; after an acknowledgement whose clear did not fail the event has no pendency and every other one is as it was. |
| `Consumer.Handler.ClassifyApplyFailure` | services/consolidation/internal/adapters/inbound/rabbitmq/consumer.go:322-337 | Permanent failures escalate; transient ones count an attempt and escalate at the maximum. |
| `Consumer.Handler.RecordPending` | services/consolidation/internal/adapters/outbound/postgres/pending_store.go:15-52 | The upsert starts at one attempt or adds one, and returns the count, zero if it failed. |
| `Reprocessing.FailingRowDroppedIff` | services/consolidation/internal/reconciliation/dlq.go:84-99 | Some faults make a parked row fail and disappear if and only if another parked row of its event id would be accepted by the projection as it stands, when no payload alone overflows it. |
| `Reprocessing.RowStaysIff` | services/consolidation/internal/reconciliation/dlq.go:84-99 | In a given pass, a dead letter stays if and only if no item of its event id succeeded. |
| `Reprocessing.OneIsItemSteps` | services/consolidation/internal/reconciliation/dlq.go:85-98 | Undisturbed, the three transactions the pipeline interleaves add up to one item of the loop. |
| `Reprocessing.OneClears` | services/consolidation/internal/reconciliation/dlq.go:84-99 | An item that succeeded leaves no dlq pendency and no dead letter of its event id; no other event's are touched, and one that failed keeps its dead letters. |
| `Reprocessing.ParkedIs` | services/consolidation/internal/reconciliation/dlq.go:51-56 | A pass reads each dead letter whose event has a pendency of class dlq as often as it is there, and no other. |
| `Reprocessing.PassHolds` | services/consolidation/internal/reconciliation/dlq.go:84-99 | Every success puts the item's event in the inbox; nothing is lost from it and only the items' events are gained. |
| `Reprocessing.FailingRowDropped` | services/consolidation/internal/reconciliation/dlq.go:94-98 | A row that fails is removed together with a succeeding row of the same event id. |
| `Reprocessing.Reprocessor.Reprocess` | services/consolidation/internal/reconciliation/dlq.go:83-107 | The loop equals the specified pass and its two counters add up to the rows read. |
| `Freshness.GetDailyBalances` | services/consolidation/internal/application/query.go:36-123 | The error cases, one line per date with its row, the applied position, the larger of progress and watermark as source, and the exact conditions of definitive, updated, processing, delayed and unverifiable. |
| `Freshness.DefinitiveIsSound` | services/consolidation/internal/application/query.go:50-82 | Read from one state with faithful events, definitive means applied = source = watermark, the ledger's totals for each date, also absent ones, and under the closing invariant the ledger's running net. |
| `Freshness.DefinitiveOverRuns` | services/ledger/internal/adapters/inbound/grpc/internal_server.go:31-43 | The same over any run of the projection and any run of the ledger. |
| `Freshness.DefinitiveAcrossReadsIff` | services/consolidation/internal/application/query.go:37-50 | With balances read earlier than progress, a definitive day equals the ledger's totals if and only if no event of that day was accepted in between. |
| `Freshness.DefinitiveCanBeStale` | services/consolidation/internal/application/query.go:37-50 | A merchant's first event accepted between the reads gives a definitive empty day. |
| `Freshness.ClosingAcrossReadsIff` | services/consolidation/internal/application/query.go:37-50 | With balances read earlier, a definitive closing is the ledger's running net if and only if the row's own error is the net of the events dated up to that day that arrived in between; for an exact row, if and only if they net to zero. |
| `Freshness.ClosingCanBeStale` | services/consolidation/internal/application/query.go:37-50 | An event of an earlier day arriving in between makes a definitive closing wrong. |
| `Freshness.ClosingCanLagItsJob` | services/consolidation/internal/application/query.go:45-50 | So does a job finished in between, with nothing arriving. |
| `Freshness.ClosingLagHappens` | services/consolidation/internal/adapters/outbound/postgres/store.go:206-269 | Two events of ordinary amounts, the late one dated one block before the first, lead there, and one resume finishes the job. |
| `Reconciliation.AttemptStream` | services/consolidation/internal/reconciliation/worker.go:210-240 | A complete stream yields the date's ids and sums up to the first entry without id; a broken one yields nothing. |
| `Reconciliation.StreamSourceEntries` | services/consolidation/internal/reconciliation/worker.go:193-208 | At most three attempts; the result is read from the chosen attempt alone. |
| `Reconciliation.DecidingAttemptAlone` | services/consolidation/internal/reconciliation/worker.go:193-208 | The chosen attempt is the first complete one not preceded by a cancellation. |
| `Reconciliation.CompareEntrySets` | services/consolidation/internal/reconciliation/worker.go:267-282 | missing, extra and duplicated are the sizes of the set differences and the excess over distinct ids. |
| `Reconciliation.CountEntries` | services/consolidation/internal/reconciliation/worker.go:253-264 | The counts are the multiplicities of the projected ids. |
| `Reconciliation.CountsBalance` | services/consolidation/internal/reconciliation/worker.go:267-282 | Projected rows = source - missing + extra + duplicated, and zero missing and extra mean equal id sets. |
| `Reconciliation.DifferenceIs` | services/consolidation/internal/reconciliation/worker.go:108-130 | The financial difference is the net accepted beyond the cut minus the net missing; with nothing missing it is zero if and only if the former is, in particular without events of that date beyond the cut. |
| `Reconciliation.ReportIs` | services/consolidation/internal/reconciliation/worker.go:123-157 | The saved report of a run against the ledger up to the cut: missing is the number of that date's entries not accepted, nothing is extra or duplicated, the difference is the size of the net accepted beyond the cut less the net missing; with nothing missing it is zero if and only if the events of that date accepted beyond the cut net to zero. |
| `Reconciliation.ReportOverRuns` | services/consolidation/internal/reconciliation/worker.go:76-166 | The same of every reachable projection state; without events of that date beyond the cut, nothing missing means a saved difference of zero. |
| `Reconciliation.RunTotals` | services/consolidation/internal/reconciliation/worker.go:109-113 | In every reachable projection state the day's row is what `DifferenceIs` assumes of it. |
| `Reconciliation.ZeroCountsNonzeroDifference` | services/consolidation/internal/reconciliation/worker.go:109-113 | Two entries of a day, the second beyond the cut: all counts zero, difference the second one's net. |
| `Reconciliation.CutsNeverDecrease` | services/consolidation/internal/reconciliation/worker.go:141-157 | Over any sequence of runs the persisted cut never decreases, changes only for a newer cut, and is at least every cut that succeeded. |
| `Reconciliation.Reconciler.Reconcile` | services/consolidation/internal/reconciliation/worker.go:76-166 | An equal or older cut returns the stored counts and writes nothing; otherwise the three counts and the size of the difference between the day's row and the chosen stream are returned and saved, or nothing on failure. |
| `Topology.Migration.Move` | services/ledger/internal/outbox/topology_migration.go:97-117 | A message leaves the source, from its head, only after its confirmed copy, at the end of the destination, is acknowledged, and is in both queues only if interrupted between the two. |
| `Topology.Migration.DrainBacklog` | services/ledger/internal/outbox/topology_migration.go:89-124 | At every way the loop can end, no message is lost, at most one is duplicated and only in that window, and moved counts the acknowledged moves; it ends drained, interrupted, or at a move that failed. |
| `Topology.Migration.Cut` | services/ledger/internal/outbox/topology_migration.go:126-142 | The destination is bound before the source is unbound, each of the four bindings is as the failure point says, and the marker is set only after every binding change. |
| `Topology.Migration.Migrate` | services/ledger/internal/outbox/topology_migration.go:39-144 | At every stopping point nothing in the queues or published meanwhile is lost, a bound source leaves the exchange with a bound main queue, and the marker stands only for a finished upgrade. |
| `Money.ParseBRL` | services/ledger/internal/domain/money.go:28-58 | Accepts exactly the decimals whose value in cents is positive and fits in int64, and returns it. |
| `Money.PrintThenParse` | services/ledger/internal/domain/money.go:75-77 | Printing and parsing gives back every positive int64 amount. |
| `Backoff.Delay` | services/ledger/internal/outbox/worker.go:163-174 | The doubling loop is min(max, base * 2^(attempt-1)) with no intermediate above max. |
| `Backoff.DelayDoubles` | services/ledger/internal/outbox/worker.go:163-174 | The first delay is the base and each later one twice the one before, or the maximum once that would exceed it. |
| `Backoff.RetryDelay` | services/ledger/internal/outbox/worker.go:175-183 | The jittered delay lies between half the base, rounded down, and the maximum. |

## Left out

- HTTP, gRPC, TLS, AMQP connections, tokens, tenancy, metrics, tracing and logging: no effect on the modelled state.
- JSON, base64, HMAC, SHA-256 and schema validation: abstract codecs; a delivery carries what its checks decide.
- The letter case of ledger ids: ParseID keeps it, so cursor scopes and stored ids compare as typed, while ids here are numbers.
- Time zones and the calendar's IANA names: "today" is an input.
- Row versions, updated_at, gap_detected_at and audit rows: no claim depends on them.
- Backoff.RetryDelay: the product with the random factor is over real numbers, not float64.
- Pagination.PagesOverRuns: the limit is the one after the default is applied, and cursors are values; encoding, signing and date-filter parsing are not modelled.
- Publisher.Worker.ProcessOnce: one pass without interference between its turns; interference is covered step by step in `Outbox`.
- Publisher.Store.Claim: the clock is read once per claim, although the statement reads it more than once.
- Reconciliation.AttemptStream: sums are unbounded integers; int64 wrap-around of a day's stream is not modelled.
- Topology.Migration.Migrate: the declarations and checks before the drain are not modelled.
- Consumer.Handler.ProcessDelivery: a failed Apply is taken as rolled back; an ambiguous commit appears as a redelivery of an applied event.
- A business date in a creation request is already parsed; the error for malformed text is not modelled.
