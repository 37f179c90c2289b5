# hovorunv2: verified model of the job, accounting and scheduling core

The project models the parts of hovorunv2 where several independent stores, processes and retries have to
agree, and proves what they keep over every run.

- **Jobs.** `AdmissionState` mirrors the pure ticket transitions of the admission store, `TicketDiagram` tells
  their state diagram arrow by arrow, and `Budgets` is the per-job reservation record. `SettlementProtocol` is
  one job with any number of worker executions and recovery sweeps as a transition system: one step per port
  call, a process may stop between any two steps, a call may raise, the broker may deliver any message again,
  cancellations, feature switches, reservation reclaiming and eviction happen at any time. `JobGuarantees`
  states what holds of every run, `JobExecution` that undisturbed executions of both stages follow a short
  decision table, `JobCancellation` and `JobExpiry` what a cancellation and the deadline stop,
  `JobPublications` which messages are sent, and `JobWorld` puts all jobs beside one shared usage ledger and
  one set of capacity totals.
  `WorkerLifecycle` is the settlement service itself, as a class whose methods update the three stores in
  place; `RecoveryProgress` tells what a sweep achieves from the stores it starts from, `RecoveryPublishing`
  which messages it sends and what it counts, `RecoveryDraining` when repeated sweeps leave nothing to settle,
  and `LifecycleRefinement` shows that service and step-by-step protocol agree. `FeatureClearing` is the
  clean-up of disabled features.
- **Usage.** `Usage` and `Jobs` hold the records and their validators, which `Validators` spells out;
  `UsageLedger` the replay-safe aggregates and `LedgerBatches` when a batch is booked, `UsageResolution` the
  override table and what is built from it, `QuotaCounters` the shared windows, buckets and concurrency sets
  behind the budgets, `QuotaTiming` their waiting times, refunds and settlements, `QuotaStranding` what those
  counters mean for a job's settlement, and `QuotaWorld` puts all jobs beside one set of them.
- **Initiatives.** `CycleDetection` is the depth-first search of `scripts/ai_scheme.py` on its own mutable
  colours and stack; `InitiativeScheme` is validation and the chooser of the next block.
- **Operations.** `SettingsSessions` (windows and confirmations over a shared cache), `SettingsBinding` and
  `SettingsExecution` (whom they are accepted for, and what one issue or resolve leaves), `ReleaseNotes`,
  `Notifications`, `Pagination`, `AuditRedaction`; `Decimal` and `Wrappers` are shared helpers.

A crash after a call's effect but before its answer is the step followed by `Crash`; a call that raises
without effect is a step whose input is not `ok`.

## Where the code and its promises part

- A prepared settlement does not always end once its backends answer. A sweep reclaims reservations ten
  minutes past their deadline; if the budget check was inconclusive until then, the reservation is marked
  expired and every later settlement of it is refused. `WorkerLifecycle.RecoveryCanStrandASettlement` is a
  concrete case, `WorkerLifecycle.SettlesExactlyWhenItCan` and `JobGuarantees.SweepFinishesExactlyClosable`
  the exact conditions, `WorkerLifecycle.StuckForever` and `JobGuarantees.StrandedForever` say that no
  later sweep helps.
- An open reservation cannot always be settled although its counters are kept. Its token bucket is shared
  by later requests of the same policy; when one of them refills it under a larger burst (a subject becomes
  trusted, an override is raised), it may hold more than the older reservation's burst and every settlement
  of that one is refused. `QuotaCounters.RaisedBurstBlocksSettlement` is a concrete case,
  `QuotaCounters.OpenReservationVerifiesExactly` the exact condition,
  `QuotaCounters.UnraisedSinceReservedVerifies` what rules it out, and
  `QuotaStranding.OverfullBucketStrandsSettlement` leads from there to a job that never ends.
- A postponed request is told the least time at which its quotas fit, unless a bucket was written by a clock ahead
  of the one that looks at it; the time is then too early by exactly that lead
  (`QuotaTiming.QuotaRetryIsLeast`).
- Clearing a disabled feature releases no reservation: its call carries no amounts, is always refused, and
  ends the pass. `FeatureClearing.ClearingCompletesExactly` says for which pages the pass completes,
  `FeatureClearing.ClearingCanStopEarly` is a page on which a waiting job is never cancelled.
- "At most five sends" holds while outcomes are recorded; every lost record allows one more send
  (`Notifications.SendsAreAttemptsOrLost`, `Notifications.LostRecordsAllowAnyNumberOfSends`).
- A settings or confirmation token can be consumed at or after its expiry: the check and the removal are
  separate steps, and the cache counts an entry's whole seconds from the moment it is stored.
  `SettingsSessions.LateExactlyWhenStoredLate` is the exact condition, known when the entry is stored: the
  storing time plus the whole seconds that were left (thirty for a confirmation) lie past the expiry.
  `SettingsSessions.LateAcceptanceCanHappen` is a concrete run. A session that is only looked up has no bound
  after its check (`SettingsSessions.LookupsHaveNoBound`); a confirmation that is only looked up is always in
  time (`SettingsSessions.ConfirmedLookupIsInTime`).
- Validation does not look at whether an initiative is archived, but the chooser does:
  `InitiativeScheme.ValidatedInitiativeFinishes` has the exact condition.
- Usage of a registered feature always resolves and can be reserved
  (`UsageResolution.RegisteredFeaturesAlwaysReserve`), but not always settled: a delivery charged in more
  windows than a batch holds, or outside the job's own seconds, is refused its settlement and stays uncertain
  (`UsageResolution.ManyWindowsCannotSettle`, exactly: `UsageResolution.RunnerSettlementIsValidExactly` and
  `UsageResolution.DeliveredJobSettlesExactly`).

## Model

| member | source | states |
|---|---|---|
| AdmissionState.TransitionKeepsRecordReadable | src/hovorunv2/infrastructure/runtime/admission_state.py:98-175 | no ticket transaction, valid or not, ever stores a record that the store's own reader would reject |
| AdmissionState.TransitionEvolves | src/hovorunv2/infrastructure/runtime/admission_state.py:383-662 | one transaction never changes envelope or size, never lowers the attempt, never returns to the media stage, never drops a reservation, settlement or outcome, and never leaves the delivery, settling or terminal states backwards |
| AdmissionState.RunEvolves | src/hovorunv2/infrastructure/runtime/admission_state.py:632-662 | the same over any sequence of transactions, with the record readable at the end |
| AdmissionState.OwnerIsFenced | src/hovorunv2/infrastructure/runtime/admission_state.py:413-421 | while a ticket is owned, a transaction without the owner's token changes nothing but RUNNING to CANCELLING on a cancel, feedback flags and the published flag |
| AdmissionState.CapacityIsReleasedOnce | src/hovorunv2/infrastructure/runtime/admission_state.py:383-410 | over any sequence of transactions capacity is released exactly once, when the ticket first becomes terminal |
| AdmissionState.TerminalIsAbsorbing | src/hovorunv2/infrastructure/runtime/admission_state.py:404-410 | a terminal ticket stays terminal with its first outcome |
| Validators.RecordExactly | src/hovorunv2/infrastructure/runtime/admission_state.py:98-175 | what a stored record must hold to be read again |
| Validators.EnvelopeExactly | src/hovorunv2/application/jobs/feature_jobs.py:22-106 | a job carries its identities in their formats, lives at most five minutes and charges whom it belongs to |
| Validators.IntentExactly | src/hovorunv2/application/jobs/admission.py:75-103 | a settlement consumes something exactly when it brings a receipt, which then completes and charges just that |
| Validators.EventExactly | src/hovorunv2/application/usage/usage_ledger.py:107-160 | an event charges one to 256 different dimensions at a time since the epoch |
| Validators.PolicyExactly | src/hovorunv2/application/usage/policies.py:64-112 | a policy is positive everywhere and its burst no larger than its limit |
| TicketDiagram.RunningIsEnteredExactly | src/hovorunv2/infrastructure/runtime/admission_state.py:424-437 | over all transactions, a ticket starts running exactly by a claim of queued work for its own stage, between its scheduled time and its deadline; owner and attempt are all that is written besides |
| TicketDiagram.WaitingIsEnteredExactly | src/hovorunv2/infrastructure/runtime/admission_state.py:561-582 | work waits exactly when its owner defers it unreserved to a time in its lifetime, with a fresh schedule and a notice asked for |
| TicketDiagram.AcceptedIsEnteredExactly | src/hovorunv2/infrastructure/runtime/admission_state.py:450-473 | work is accepted again exactly when its owner hands running media work to the browser |
| TicketDiagram.UncertainIsEnteredExactly | src/hovorunv2/infrastructure/runtime/admission_state.py:584-592 | the delivery fence is crossed exactly by the owner of running work before the deadline |
| TicketDiagram.SettlingIsEnteredExactly | src/hovorunv2/infrastructure/runtime/admission_state.py:594-614 | a settlement is prepared exactly by the owner with a fitting intent, or at zero for reserved queued work that is cancelled or overdue |
| TicketDiagram.TerminalIsEnteredExactly | src/hovorunv2/infrastructure/runtime/admission_state.py:383-448 | a ticket ends exactly by its owner with the prepared or, unreserved, any outcome, or as unreserved queued work that nobody owns, is cancelled or overdue |
| TicketDiagram.StayingWritesExactly | src/hovorunv2/infrastructure/runtime/admission_state.py:495-559 | what each transaction writes that leaves the state as it is |
| TicketDiagram.RaisesExactly | src/hovorunv2/infrastructure/runtime/admission_state.py:632-662 | conflicting and malformed requests raise exactly where their transition says so |
| TicketDiagram.NoticesAreGrantedOnce | src/hovorunv2/infrastructure/runtime/admission_state.py:518-548 | over any run each feedback message is granted at most once |
| TicketDiagram.RepublicationsAreSpaced | src/hovorunv2/infrastructure/runtime/admission_state.py:550-559 | over any run the message of one stage and attempt is allowed again only five seconds after the last time |
| TicketDiagram.IndexHoldsAccepted | src/hovorunv2/infrastructure/runtime/admission.py:439-442 | over any run the index of accepted work holds a ticket exactly while it is accepted |
| SettlementProtocol.ActKeeps | src/hovorunv2/application/jobs/feature_job_runner.py:215-573 | every step of every process, every environment action and every crash keeps the protocol invariant |
| SettlementProtocol.RunKeeps | src/hovorunv2/application/jobs/worker_lifecycle_service.py:37-142 | the invariant (one executor, three backends in agreement, what each process may rely on) holds after every run |
| SettlementProtocol.CompleteKeeps | src/hovorunv2/application/jobs/worker_lifecycle_service.py:37-52 | preparing a settlement takes the ticket from its executor with one immutable intent, and only a confirmed delivery carries a receipt |
| SettlementProtocol.CreditKeeps | src/hovorunv2/application/jobs/worker_lifecycle_service.py:78-82 | the reservation is settled after the receipt, once, at the prepared amounts, however many processes settle |
| JobGuarantees.DeliveredAtMostOnce | src/hovorunv2/application/jobs/feature_job_runner.py:437-469 | over every run delivery starts at most once and is confirmed at most as often as it starts |
| JobGuarantees.OneExecutorAtATime | src/hovorunv2/application/jobs/admission.py:216-224 | two processes never execute one job at the same time, across duplicate messages and browser handoffs |
| JobGuarantees.DeliveryFenceIsFinal | src/hovorunv2/application/jobs/admission.py:242-244 | after delivery may have begun the ticket is never queued or running again |
| JobGuarantees.AccountedAtMostOnce | src/hovorunv2/application/jobs/worker_lifecycle_service.py:54-85 | a job's receipt and its runtime settlement are each written at most once |
| JobGuarantees.SettledBeforeReleased | src/hovorunv2/application/jobs/worker_lifecycle_service.py:63-85 | a job that ended through a settlement has exactly its receipt recorded and its reservation settled at exactly its amounts: admission is never released ahead of accounting |
| JobGuarantees.ReservationAgreesWithSettlement | src/hovorunv2/infrastructure/runtime/budget_state.py:263-278 | the stored reservation is committed or released exactly when it holds amounts, and they are those the job was settled with |
| JobGuarantees.OnlyConfirmedDeliveriesAreCharged | src/hovorunv2/application/jobs/feature_job_runner.py:452-469 | a recorded receipt belongs to a job delivered and confirmed once, charged to its own subject, with a time inside its own lifetime |
| JobGuarantees.FailedJobsAreNotCharged | src/hovorunv2/application/jobs/admission.py:84-102 | expired, cancelled, rejected and failed jobs have no receipt, and delivery-uncertain jobs neither a receipt nor a settled reservation |
| JobGuarantees.ConfirmedSettlementIsCharged | src/hovorunv2/application/jobs/feature_job_runner.py:558-573 | a finished settlement that consumed something has its one receipt, and its delivery was confirmed |
| JobGuarantees.CapacityReturnedOnce | src/hovorunv2/application/jobs/admission.py:226-228 | over every run capacity is given back exactly once, when the job ends |
| JobGuarantees.EpochFence | src/hovorunv2/application/jobs/feature_job_runner.py:279-291 | the worker's check lets a job extract exactly when its feature has not been switched at all since the job was stamped; otherwise it settles at zero as cancelled |
| JobGuarantees.DisabledFeatureIsNeverExtracted | src/hovorunv2/application/jobs/admission_service.py:138-141 | a job whose feature was disabled after its stamp and before the check never starts extracting in any continuation, even if the feature is enabled again |
| JobGuarantees.DeadlineIsNeverRenewed | src/hovorunv2/application/jobs/feature_jobs.py:74-77 | the envelope keeps its deadline, at most 300 seconds after acceptance; every claim was made for the ticket's own stage, at or after the schedule then in force and before the deadline, as were delivery starts and all publications, the bot's own first one included |
| JobGuarantees.SweepFinishesExactlyClosable | src/hovorunv2/application/jobs/worker_lifecycle_service.py:124-136 | a sweep whose every call answers ends a prepared settlement exactly when its reservation is still held or already settled |
| JobGuarantees.StrandedForever | src/hovorunv2/application/jobs/worker_lifecycle_service.py:78-82 | a settlement whose reservation is gone or reclaimed, with nobody past the budget call, stays unsettled in every continuation |
| JobGuarantees.LateReclaimStrands | src/hovorunv2/infrastructure/runtime/budget_state.py:491-539 | reclaiming the reservation of a waiting settlement keeps that job's capacity taken in every continuation |
| JobExecution.ExecutionFollowsTheTable | src/hovorunv2/application/jobs/feature_job_runner.py:192-573 | a fresh job claimed in time, whose calls answer, each call whatever it likes and with its own clock reading in the job's lifetime, ends within fifteen steps exactly as the decision table says of the answers acted on: charged once, settled at zero with the right outcome, waiting, handed to the browser, or left running or uncertain for recovery |
| JobExecution.BrowserExecutionFollowsTheTable | src/hovorunv2/application/jobs/feature_job_runner.py:471-519 | a job handed to the browser, whose second message arrives in time and whose calls answer, ends by the same table with the reservation it brought along |
| JobExecution.ExecutionsAgree | src/hovorunv2/application/jobs/feature_job_runner.py:192-573 | an execution depends on each answer only at the step that asks for it, and on the clock only when it reserves: step by step it goes like one whose answers never change |
| JobExecution.ZeroSettles | src/hovorunv2/application/jobs/feature_job_runner.py:570-573 | completing at zero ends the job with that outcome, its reservation released and no receipt |
| JobExecution.ChargedSettles | src/hovorunv2/application/jobs/feature_job_runner.py:468-469 | completing a confirmed delivery ends the job with its receipt recorded and its reservation committed |
| JobCancellation.CancelledIsNeverDelivered | src/hovorunv2/infrastructure/runtime/admission_state.py:487-592 | once a running job is cancelled no continuation starts its delivery, writes a receipt or charges it |
| JobCancellation.CancelledSettlesAtZero | src/hovorunv2/application/jobs/feature_job_runner.py:264-291 | a job found cancelled at its mark, the delivery fence or the handoff is settled at zero as cancelled in five answered steps, with nothing extracted, delivered or sent since |
| JobExpiry.LateMessageExpires | src/hovorunv2/application/jobs/feature_job_runner.py:205-233 | a message at or past its deadline starts nothing, and ends the job as expired exactly when it is queued and unreserved |
| JobExpiry.OverdueSweepExpires | src/hovorunv2/application/jobs/worker_lifecycle_service.py:130-136 | a sweep that finds queued work overdue ends it, or prepares its settlement at zero when it is reserved |
| JobPublications.SweepRepublishesExactly | src/hovorunv2/application/jobs/worker_lifecycle_service.py:129-142 | a sweep of queued work in time publishes its own stage exactly when the ticket allows this attempt to go out again and the job still has time, and moves the next try on by five seconds |
| JobPublications.EnqueuePublishesExactly | src/hovorunv2/infrastructure/runtime/admission_state.py:475-485 | enqueueing publishes exactly accepted work nobody published, for the schedule registered first, while that time lies before the deadline |
| JobPublications.HandoffPublishesExactly | src/hovorunv2/application/jobs/feature_job_runner.py:510-519 | handing off publishes browser work exactly when the owner's media job still runs and has time |
| LifecycleRefinement.SweepAgreesWithService | src/hovorunv2/application/jobs/worker_lifecycle_service.py:54-127 | from every reachable settling job the protocol's sweep and one call of the service leave the same ticket and reservation |
| JobWorld.SharedLedgerRefinesRecording | src/hovorunv2/infrastructure/persistence/repositories/usage_ledger.py:114-152 | the shared ledger gives each job the answer its own step assumes: written once, replayed afterwards, never a conflict |
| JobWorld.CountersAreConfirmedDeliveries | src/hovorunv2/application/usage/usage_ledger.py:212-228 | after any run over any jobs every aggregate counter equals the charges of the confirmed deliveries, each once |
| JobWorld.ReceiptsInjectIntoDeliveries | src/hovorunv2/application/jobs/worker_lifecycle_service.py:70-76 | every ledger receipt belongs to exactly one job, delivered and confirmed once |
| JobWorld.CapacityIsConserved | src/hovorunv2/infrastructure/runtime/admission.py:410-438 | the pending count and bytes, and the pending count of every subject and ingress, always equal the unfinished tickets |
| JobWorld.LimitsAreNeverExceeded | src/hovorunv2/infrastructure/runtime/admission.py:99-106 | unfinished work never exceeds the largest limits it was admitted under, in number, in bytes, per charged subject and per ingress |
| JobWorld.AdmitsExactly | src/hovorunv2/infrastructure/runtime/admission.py:99-106 | a fresh job of a new identity is admitted exactly when it fits every limit, and then counts in each of them |
| WorkerLifecycle.CompletesExactly | src/hovorunv2/application/jobs/worker_lifecycle_service.py:37-52 | completing succeeds if and only if, on the stores before the call, the caller owns the ticket with the one fitting intent, the receipt can be booked and the reservation closed; the job then ends with that intent, its receipt in the ledger and its reservation settled |
| WorkerLifecycle.CompleteIsRefused | src/hovorunv2/application/jobs/worker_lifecycle_service.py:48-51 | a caller that does not own the ticket, or brings another or an unfitting intent, gets an error and all three stores are unchanged |
| WorkerLifecycle.FailedCompleteStaysPrepared | src/hovorunv2/application/jobs/worker_lifecycle_service.py:48-52 | a failure after the preparation leaves the ticket settling with exactly the caller's intent |
| WorkerLifecycle.CompletedReservationIsClosed | src/hovorunv2/application/jobs/worker_lifecycle_service.py:78-85 | a reserved job never ends through its settlement with its reservation left open |
| WorkerLifecycle.FirstFailureStops | src/hovorunv2/application/jobs/worker_lifecycle_service.py:70-95 | the first stage of a settlement that fails ends it and leaves the later stores as they were |
| WorkerLifecycle.WorkerLifecycleService.Reconcile | src/hovorunv2/application/jobs/worker_lifecycle_service.py:54-95 | the answer and the whole new state for every combination of calls that raise |
| WorkerLifecycle.WorkerLifecycleService.RecoverTicket | src/hovorunv2/application/jobs/worker_lifecycle_service.py:124-142 | the answer and the whole new state for each kind of page entry |
| WorkerLifecycle.WorkerLifecycleService.Recover | src/hovorunv2/application/jobs/worker_lifecycle_service.py:97-122 | every entry has its turn whatever the others answer, then stale reservations are reclaimed; the count is the sum |
| WorkerLifecycle.ReplayConverges | src/hovorunv2/application/jobs/worker_lifecycle_service.py:54-85 | after any number of attempts stopped between any two commits, one full replay leaves exactly what one uninterrupted settlement leaves |
| WorkerLifecycle.SettlesExactlyWhenItCan | src/hovorunv2/application/jobs/worker_lifecycle_service.py:63-85 | with every backend answering a prepared settlement ends if and only if its receipt is booked already with the same charges, or is new with a known subject and room in every counter, and its reservation closes at its amounts; otherwise the tickets are unchanged |
| WorkerLifecycle.EveryEntryIsHandled | src/hovorunv2/application/jobs/worker_lifecycle_service.py:107-112 | an entry is handled on its own ticket and reservation as they were before the sweep, whatever the other entries do |
| WorkerLifecycle.SweepLeavesLiveOwnersAlone | src/hovorunv2/application/jobs/worker_lifecycle_service.py:113-129 | running, cancelling and delivery-uncertain tickets come through any whole sweep unchanged, and their reservations unchanged exactly unless the sweep's reclaim finds them ten minutes past their deadline |
| RecoveryPublishing.PublishesExactly | src/hovorunv2/application/jobs/worker_lifecycle_service.py:137-142 | handling an entry publishes exactly its own envelope and stage when it is due and in time, and nothing otherwise; an allowed entry changes only the time of its next try |
| RecoveryPublishing.AllowedOnceInFiveSeconds | src/hovorunv2/infrastructure/runtime/admission_state.py:550-559 | once allowed, no snapshot of that ticket is published again for five seconds |
| RecoveryPublishing.SweepPublishesExactly | src/hovorunv2/application/jobs/worker_lifecycle_service.py:107-142 | a sweep sends exactly the due messages of its page, each once and in order, whatever else happens in it |
| RecoveryPublishing.SweepCountsExactly | src/hovorunv2/application/jobs/worker_lifecycle_service.py:107-122 | the answer of a sweep counts exactly the tickets it ended, the messages it sent and the reservations it reclaimed |
| RecoveryProgress.SweepSettlesExactlyWhatItCan | src/hovorunv2/application/jobs/worker_lifecycle_service.py:107-127 | a settling ticket whose calls answer is ended by the sweep if and only if, on the stores before the sweep, its reservation closes and its receipt is booked already or is new, for a known subject, with the room the page's earlier receipts leave |
| RecoveryProgress.SweepChangesSettling | src/hovorunv2/application/jobs/worker_lifecycle_service.py:107-142 | a sweep of a fresh page lowers the settling tickets by exactly the closable ones of its page and raises them by exactly the reserved expired ones whose reservation cannot be closed |
| RecoveryDraining.RecoveryDrains | src/hovorunv2/application/jobs/worker_lifecycle_service.py:97-142 | once every call answers, sweeps that between them list every settling ticket leave none, if on the stores as found each reservation that may be asked for closes and is not reclaimed, and each receipt is booked already or new, for a known subject, with room for all of them together |
| RecoveryProgress.RecoveringSweepsDrain | src/hovorunv2/application/jobs/worker_lifecycle_service.py:97-142 | the same when each sweep finds everything on its own page closable, judged on the stores it starts from |
| RecoveryProgress.RecoveringSweepClears | src/hovorunv2/application/jobs/worker_lifecycle_service.py:107-127 | each such sweep ends every settling ticket of its page, adds none, and the count falls by as many |
| RecoveryProgress.OffPageStaysClosable | src/hovorunv2/application/jobs/worker_lifecycle_service.py:113-117 | a settlement waiting off the page stays closable exactly unless its reservation is reclaimed meanwhile |
| WorkerLifecycle.StuckForever | src/hovorunv2/application/jobs/worker_lifecycle_service.py:97-127 | a settlement whose reservation does not close survives any number of sweeps unfinished |
| WorkerLifecycle.RecoveryCanStrandASettlement | src/hovorunv2/application/jobs/worker_lifecycle_service.py:113-117 | a concrete settling ticket that could be closed, and is stranded by one sweep with an inconclusive budget check |
| FeatureClearing.FeatureJobRunner.ClearFeature | src/hovorunv2/application/jobs/feature_job_runner.py:609-637 | the new tickets and payloads, no reservation changed, and the pass ends at the first entry that asks for a release |
| FeatureClearing.ClearingCompletesExactly | src/hovorunv2/application/jobs/feature_job_runner.py:619-637 | a page clears in full exactly when no entry holds budget after it ended or ran past its deadline |
| FeatureClearing.ClearsExactly | src/hovorunv2/application/jobs/feature_job_runner.py:617-627 | at its turn a queued ticket ends as cancelled or prepares a zero settlement, and a running one is asked to stop |
| FeatureClearing.DropsExactly | src/hovorunv2/application/jobs/feature_job_runner.py:628-634 | a completed pass drops exactly the payloads of the work that is over |
| FeatureClearing.ClearingCanStopEarly | src/hovorunv2/application/jobs/feature_job_runner.py:619-637 | a concrete page whose reserved running ticket past its deadline ends the pass before the waiting job behind it is cancelled |
| UsageLedger.WindowsPartitionTime | src/hovorunv2/application/usage/policies.py:45-60 | an aligned window holds a timestamp exactly when it is the one the timestamp aligns to |
| UsageLedger.FingerprintDecidesReplay | src/hovorunv2/application/usage/usage_ledger.py:161-172 | two events have equal pre-hash fingerprints exactly when subject, time and the multiset of charges agree |
| UsageLedger.LedgerRefinesEventLog | src/hovorunv2/infrastructure/persistence/repositories/usage_ledger.py:91-152 | after any sequence of batches with replays, conflicts and rollbacks every counter is the sum over the distinct committed events in its window |
| UsageLedger.BatchOfOneTakenExactly | src/hovorunv2/infrastructure/persistence/repositories/usage_ledger.py:91-152 | one receipt is taken exactly when it is there already with the same charges, or is new, its subject is known and no counter overflows |
| LedgerBatches.BatchTakenExactly | src/hovorunv2/infrastructure/persistence/repositories/usage_ledger.py:91-152 | a batch is booked as a whole exactly when it has at most 256 events, its receipts agree with each other and with those booked, new events charge existing subjects, and all new charges together stay countable |
| LedgerBatches.BatchIsSorted | src/hovorunv2/infrastructure/persistence/repositories/usage_ledger.py:114-133 | batches are booked in the order of their identities |
| UsageLedger.SameEventsSameTotals | src/hovorunv2/application/usage/usage_ledger.py:212-228 | ledgers that committed the same events in any batches and order hold the same totals |
| UsageLedger.BatchReplayChangesNothing | src/hovorunv2/infrastructure/persistence/repositories/usage_ledger.py:135-152 | repeating a committed batch succeeds and changes nothing |
| UsageResolution.ApplyOverrides | src/hovorunv2/application/usage/usage_resolution.py:91-107 | the loop computes the override table |
| UsageResolution.LastOverrideWins | src/hovorunv2/application/usage/usage_resolution.py:91-107 | per bucket and window the last matching override stands, else the default |
| UsageResolution.ResolvesExactlyWhenCovered | src/hovorunv2/application/usage/usage_resolution.py:49-123 | resolution succeeds exactly when each bucket has a default or an override of the unit |
| UsageResolution.ResolvedUsageIsSound | src/hovorunv2/application/usage/usage_resolution.py:24-53 | resolved policies are valid, of one unit, distinct in bucket and window, and leave no bucket uncovered |
| UsageResolution.RunnerReservationIsAcceptedExactly | src/hovorunv2/application/jobs/feature_job_runner.py:309-329 | for any overrides the database can hold, the reservation built from resolved usage fits the runtime counters, and it is a valid request for every valid job except a provider job outside the media family |
| UsageResolution.RegisteredFeaturesAlwaysReserve | src/hovorunv2/application/features/registry.py:144-175 | for every feature of the registry, any overrides the database can hold and any valid job, usage resolves and the runner's reservation is valid and fits the runtime counters, for provider jobs too |
| UsageResolution.DefaultUsage | src/hovorunv2/application/usage/usage_resolution.py:14-84 | without overrides a registered feature has exactly two policies a minute: six requests for an ordinary user, twelve for a trusted one or a group, and a group may have more waiting |
| UsageResolution.ResolvedChargesAreSupported | src/hovorunv2/application/usage/usage_ledger.py:273-307 | charges resolved for a registered feature in one of its units are never refused as unsupported |
| UsageResolution.SupportedExactly | src/hovorunv2/application/usage/usage_ledger.py:273-307 | a charge is supported exactly when a registered feature, or one of its family, backs it in its unit |
| UsageResolution.RunnerSettlementIsValidExactly | src/hovorunv2/application/jobs/feature_job_runner.py:558-568 | the receipt and intent pass every validator exactly when they count requests and stay within the ledger's charge, bucket, window and time bounds |
| UsageResolution.ManyWindowsCannotSettle | src/hovorunv2/application/usage/usage_ledger.py:131-138 | concrete stored overrides that resolve to 257 policies, whose receipt no batch holds |
| UsageResolution.ManyWindowsStayUncertain | src/hovorunv2/infrastructure/runtime/admission_state.py:594-629 | the delivered job of that usage is refused every settlement and stays uncertain |
| UsageResolution.DeliveredJobSettlesExactly | src/hovorunv2/infrastructure/runtime/admission_state.py:594-629 | a delivered reserved ticket takes that intent exactly when it is valid and its second lies between those of acceptance and deadline |
| Budgets.AllowsExactly | src/hovorunv2/infrastructure/runtime/budgets.py:74-137 | work may go on exactly in time with a reservation of its own, newly granted or open with the same request and readable counters; a stored one is never taken again |
| Budgets.ClosesExactly | src/hovorunv2/infrastructure/runtime/budget_state.py:446-488 | an open reservation is closed exactly by amounts that cover its units within its estimates, once its counters verify, committed when anything was consumed and given back otherwise |
| Budgets.ClosedStays | src/hovorunv2/infrastructure/runtime/budget_state.py:458-463 | a closed reservation only accepts its own amounts again |
| Budgets.ReclaimedExactly | src/hovorunv2/infrastructure/runtime/budget_state.py:491-539 | a reservation is reclaimed exactly when it is open and ten minutes past its deadline |
| QuotaCounters.AdmittedExactlyWhenItFits | src/hovorunv2/infrastructure/runtime/budget_state.py:364-398 | a reservation is admitted exactly when its counters can be judged and every window, bucket and scope has room; a postponed one gets a strictly later time |
| QuotaCounters.QuotaIsNeverExceeded | src/hovorunv2/infrastructure/runtime/budget_state.py:364-488 | held counters equal the open reservations, and consumed plus open requests never exceed the largest limit the window was requested under |
| QuotaCounters.ConcurrencyIsNeverExceeded | src/hovorunv2/infrastructure/runtime/budgets.py:139-152 | a concurrency scope holds exactly its open reservations, never more than its largest limit |
| QuotaCounters.OpenReservationVerifiesExactly | src/hovorunv2/infrastructure/runtime/budget_state.py:428-443 | over every run, whatever bursts its requests carry, ownership of an open reservation verifies if and only if each of its buckets holds at most the reservation's own burst |
| QuotaCounters.UnraisedBurstVerifies | src/hovorunv2/infrastructure/runtime/budget_state.py:428-443 | an open reservation verifies when each of its buckets was last written under no larger burst than its own |
| QuotaCounters.UnraisedSinceReservedVerifies | src/hovorunv2/infrastructure/runtime/budget_state.py:364-443 | it stays settleable through every run in which no request, settlement or reclaim on its rates since uses a larger burst |
| QuotaCounters.RaisedBurstBlocksSettlement | src/hovorunv2/infrastructure/runtime/budget_state.py:433-441 | two concrete requests, admitted before and after a subject became trusted, after which no settlement of the first is accepted |
| QuotaTiming.QuotaRetryIsLeast | src/hovorunv2/infrastructure/runtime/budget_state.py:375-393 | the time a quota postpones a request to is the least one at which window and bucket fit it; with a bucket written by a clock ahead of this one, exactly that much too early |
| QuotaTiming.WaitingIsLeast | src/hovorunv2/infrastructure/runtime/budget_state.py:364-398 | a postponed request is told the least time at which all its quotas fit, and at least one second while a scope is full |
| QuotaTiming.RefundsExactly | src/hovorunv2/infrastructure/runtime/budget_state.py:464-486 | settling gives each bucket what was not consumed on top of what flowed in, up to its burst, and touches no other bucket |
| QuotaTiming.FullSettlementGivesNothingBack | src/hovorunv2/infrastructure/runtime/budget_state.py:464-486 | settling at the full amount only refills |
| QuotaTiming.ReserveThenReleaseRestores | src/hovorunv2/infrastructure/runtime/budget_state.py:364-488 | reserving and giving back at once leaves buckets and held counters as if nothing had been taken |
| QuotaTiming.JudgedExactly | src/hovorunv2/infrastructure/runtime/budget_state.py:372-391 | the first quota that is too big for its limits or whose counters cannot be trusted decides a request; one with neither is judged |
| QuotaTiming.SettlesExactly | src/hovorunv2/infrastructure/runtime/budget_state.py:428-488 | an open share is settled exactly by amounts of its own units within its estimates while no counter it relies on is lost, unreadable or too large; any other settlement changes nothing |
| QuotaStranding.FinishRefines | src/hovorunv2/infrastructure/runtime/budget_state.py:446-488 | settling a share against its counters is settling its reservation record with that verification answer |
| QuotaStranding.ExpireRefines | src/hovorunv2/infrastructure/runtime/budget_state.py:491-539 | reclaiming a share is reclaiming its reservation record |
| QuotaStranding.OverfullBucketStrandsSettlement | src/hovorunv2/infrastructure/runtime/budget_state.py:428-443 | while a bucket holds more than the reservation's burst, any number of answered sweeps leaves the settlement waiting, whatever the counters do between them, and after the reclaim nothing ever ends the job or gives back its capacity |
| QuotaStranding.FreshJobCanWait | src/hovorunv2/application/jobs/feature_job_runner.py:471-519 | every fresh job whose feature is still on has a run to a waiting settlement at zero with its reservation open: handed to the browser and cancelled there |
| QuotaStranding.TrustStrandsFirstJob | src/hovorunv2/infrastructure/runtime/budget_state.py:428-443 | a concrete accepted job, run to such a settlement, is stranded by the concrete requests above through any number of sweeps |
| QuotaWorld.ReserveRefines | src/hovorunv2/infrastructure/runtime/budget_state.py:364-398 | reserving against the shared counters leaves the job exactly the reservation the protocol keeps on their answer, and moves the counters exactly when it is granted |
| QuotaWorld.SharedRunKeeps | src/hovorunv2/application/jobs/feature_job_runner.py:309-329 | over any run of any jobs beside one set of counters, every job's reservation and settled amounts are those of its own share of the counters |
| QuotaWorld.JobsRunTheirProtocol | src/hovorunv2/application/jobs/feature_job_runner.py:192-573 | over any such run each job is one its own protocol reaches from its acceptance, so whatever is guaranteed of every run of one job holds of all of them together |
| QuotaWorld.EachActionIsAStep | src/hovorunv2/application/jobs/feature_job_runner.py:309-329 | an action moves its own job by exactly one step of the protocol, on the counters' answers, and no other job |
| QuotaWorld.JobsStayWithinQuota | src/hovorunv2/infrastructure/runtime/budget_state.py:364-488 | over every such run, the charged deliveries and open reservations in a quota window together never exceed the largest limit it was requested under |
| QuotaWorld.JobsStayWithinConcurrency | src/hovorunv2/infrastructure/runtime/budgets.py:139-152 | over every such run, the jobs with an open reservation in a concurrency scope never exceed its largest limit |
| CycleDetection.CycleDetector.Dfs | scripts/ai_scheme.py:224-240 | grey nodes are the stack, the stack is a path, finished nodes are in topological order; a reported path is a closed walk |
| CycleDetection.CycleDetector.DetectCycle | scripts/ai_scheme.py:219-245 | reports a genuine closed walk, and reports nothing exactly when the known graph has none |
| CycleDetection.TopologicalIsAcyclic | scripts/ai_scheme.py:238-240 | a complete finishing order leaves no room for a closed walk |
| InitiativeScheme.ValidateBlockIds | scripts/ai_scheme.py:248-263 | missing and duplicate identifiers are reported exactly when present |
| InitiativeScheme.ValidateSingleBlock | scripts/ai_scheme.py:266-300 | an error is reported exactly when its own condition fails |
| InitiativeScheme.ValidateInitiative | scripts/ai_scheme.py:319-342 | reports nothing exactly when the initiative is in order; a reported cycle is a closed walk and a cycle is always reported |
| InitiativeScheme.CommandNext | scripts/ai_scheme.py:389-416 | returns the first TODO block whose prerequisites are all done, and nothing for closed or archived initiatives |
| InitiativeScheme.NextBlockExactly | scripts/ai_scheme.py:389-416 | the next block is the first ready one of an initiative that is neither closed nor archived |
| InitiativeScheme.ClosureExactly | scripts/ai_scheme.py:345-360 | a closed initiative is in order exactly when it has blocks, all done with their reports, and both records |
| InitiativeScheme.FinishesExactlyWhenRunnable | scripts/ai_scheme.py:402-416 | taking and finishing the next block repeatedly finishes everything exactly when the TODO blocks have known prerequisites and no cycle among them, in one pick per TODO block |
| InitiativeScheme.ValidatedInitiativeFinishes | scripts/ai_scheme.py:319-416 | a validated initiative of TODO and DONE blocks is finished that way unless it is archived with work left |
| InitiativeScheme.PrerequisitesComeFirst | scripts/ai_scheme.py:406-413 | no block is picked before each of its prerequisites was done or picked |
| SettingsSessions.ConsumedAtMostOnce | src/hovorunv2/application/settings/settings_session_service.py:226-236 | each token is consumed by at most one resolve, however many race |
| SettingsExecution.NoTokenIsConsumedTwice | src/hovorunv2/application/settings/settings_session_service.py:226-236 | over every run no two accepted requests consume the same token, and whoever is accepted has the context in hand |
| SettingsExecution.IssueReplacesWindow | src/hovorunv2/application/settings/settings_session_service.py:130-164 | an undisturbed issue forgets the previous session, points the window at the new token and stores its session for the whole seconds the window had left |
| SettingsExecution.SessionResolvesExactly | src/hovorunv2/application/settings/settings_session_service.py:198-282 | an undisturbed request is accepted exactly when its session is stored and alive, was issued for it, has not expired and is the chat's window, with user and chat confirmed; consuming removes it and a refusal changes nothing |
| SettingsExecution.ConfirmationResolvesExactly | src/hovorunv2/application/settings/admin_session_service.py:110-165 | the same for a confirmation, which has no window |
| SettingsExecution.LeavingAWindowRetires | src/hovorunv2/application/settings/settings_session_service.py:147-158 | a token that leaves its window is retired |
| SettingsSessions.AcceptedOnlyWhileCurrent | src/hovorunv2/application/settings/settings_session_service.py:198-282 | an accepted resolve did not begin after its token was consumed or lost its window, and was checked before the original expiry |
| SettingsBinding.AcceptedForWhomItWasIssued | src/hovorunv2/application/settings/settings_session_service.py:198-282 | over every run, whoever is accepted is the actor the token's own context was issued to, on its message, with user and chat confirmed; a session also in its own chat and for one of its operations |
| SettingsBinding.BindsExactly | src/hovorunv2/application/settings/settings_session_service.py:252-282 | a context binds a request exactly when it was issued for it and has not expired |
| SettingsSessions.LateExactlyWhenStoredLate | src/hovorunv2/application/settings/settings_session_service.py:143-236 | some continuation with an ordered clock consumes a live token at or after its expiry if and only if its entry was stored so late that the whole seconds it was given end after the expiry; for a confirmation these are thirty |
| SettingsSessions.TimelyIsNeverLate | src/hovorunv2/application/settings/settings_session_service.py:143-157 | over every run, whoever consumes an entry stored in time does so before the original expiry |
| SettingsSessions.LateAcceptanceIsBounded | src/hovorunv2/application/settings/settings_session_service.py:143-157 | over every run, a consuming resolve finishes before the original expiry plus the time its issuer spent between reading the clock and storing the entry |
| SettingsSessions.LookupsHaveNoBound | src/hovorunv2/application/settings/settings_session_service.py:218-238 | a live session looked up without being consumed can be accepted at any later time |
| SettingsSessions.ConfirmedLookupIsInTime | src/hovorunv2/application/settings/admin_session_service.py:110-159 | a confirmation looked up without being consumed is accepted before its original expiry |
| SettingsSessions.LateAcceptanceCanHappen | src/hovorunv2/application/settings/settings_session_service.py:218-236 | a concrete run in which a token is accepted half a second after its expiry |
| SettingsSessions.ReissueKeepsExpiry | src/hovorunv2/application/settings/settings_session_service.py:130-164 | every context in anybody's hands ends with its original preparation |
| SettingsSessions.RetiredForGood | src/hovorunv2/application/settings/settings_session_service.py:147-158 | a token that lost its window never gets one back |
| SettingsSessions.ResolverConfirms | src/hovorunv2/application/settings/admin_session_service.py:110-159 | the confirmation path keeps the same single-use invariant |
| ReleaseNotes.VersionRoundTrip | src/hovorunv2/application/operations/changelog.py:35-47 | a printed version reads back, with or without tag prefix and pre-release suffix |
| ReleaseNotes.NotesSplitAtAnyVersion | src/hovorunv2/application/operations/changelog.py:139-188 | the sections for (a, c] are the disjoint union of those for (a, b] and (b, c] |
| ReleaseNotes.ExtractReleaseNotes | src/hovorunv2/application/operations/changelog.py:139-163 | the loop selects the nonempty sections in range, and none when nothing was released |
| ReleaseNotes.SelectedCount | src/hovorunv2/application/operations/changelog.py:166-188 | a section is selected as often as it is written when it is in range, never otherwise |
| ReleaseNotes.ReleaseUpdateService.Publish | src/hovorunv2/application/operations/release_updates.py:60-98 | the whole new state for each branch, with one receipt upserted per approved group |
| ReleaseNotes.PublishQueuesFreshReceipts | src/hovorunv2/application/operations/release_updates.py:83-96 | a start that publishes creates one fresh pending receipt per approved group and touches no other; one that does not publish touches none |
| ReleaseNotes.ReceiptsAreNeverReset | src/hovorunv2/application/operations/release_updates.py:83-96 | over any run a queued receipt is never queued again |
| ReleaseNotes.MarkerNeverDecreases | src/hovorunv2/application/operations/release_updates.py:62-69 | the version marker never moves back |
| ReleaseNotes.PublishedExactlyOnce | src/hovorunv2/application/operations/release_updates.py:60-98 | a section shipped with the releases that reach it is in exactly one published body when the marker crosses it, in none otherwise |
| ReleaseNotes.PublishesExactly | src/hovorunv2/application/operations/release_updates.py:60-98 | a start publishes exactly when a version is stored, the running one is newer, something was written since and the body is stored; the marker moves exactly on the first start, or for a newer version with nothing to publish or a stored body |
| ReleaseNotes.MarkerIsGreatestStarted | src/hovorunv2/application/operations/release_updates.py:62-69 | after any start on a fresh database a version is stored; with bodies stored it is the greatest one started, and the first start publishes nothing |
| ReleaseNotes.FreshDatabasePublishesOnce | src/hovorunv2/application/operations/release_updates.py:60-98 | from a fresh database on, each section is published once when it lies after the first started version, else never |
| ReleaseNotes.BeforeExactly | src/hovorunv2/application/operations/changelog.py:35-47 | versions are ordered by their first difference, and one that goes on is later than one that stops there |
| ReleaseNotes.SelectedInOrder | src/hovorunv2/application/operations/changelog.py:139-163 | sections are selected in the order they are written |
| ReleaseNotes.PrefixDoesNotMatter | src/hovorunv2/application/operations/release_updates.py:74-74 | the tag prefix changes neither a version's event nor its meaning |
| ReleaseNotes.NoDigitsIsZero | src/hovorunv2/application/operations/changelog.py:35-47 | a text without digits counts as 0.0.0 |
| Notifications.NotificationDeliveryService.DeliverDue | src/hovorunv2/application/operations/notification_delivery.py:89-104 | each receipt of a page has its own turn, accepted sends are counted, and the first call that raises ends the sweep |
| Notifications.SendsAreAttemptsOrLost | src/hovorunv2/application/operations/notification_delivery.py:106-135 | sends are exactly the recorded attempts plus the sends whose record was lost, whatever the clocks say; attempts stop at five |
| Notifications.AtMostFiveSends | src/hovorunv2/application/operations/notification_delivery.py:117-126 | while outcomes are recorded a receipt is sent at most five times |
| Notifications.LostRecordsAllowAnyNumberOfSends | src/hovorunv2/application/operations/notification_delivery.py:117-135 | concrete turns after which a receipt was sent any given number of times |
| Notifications.FinalOutcomesStay | src/hovorunv2/infrastructure/persistence/stores/worker_notification_store.py:39-65 | after a delivered, skipped, dismissed or unreachable outcome nothing is sent |
| Notifications.FifthAttemptIsFinal | src/hovorunv2/application/operations/notification_delivery.py:120-126 | the fifth recorded attempt has a final outcome |
| Notifications.SentExactly | src/hovorunv2/application/operations/notification_delivery.py:106-116 | a due receipt is sent exactly when its time has come and every gate is open, and then once |
| Notifications.ClosedGateEnds | src/hovorunv2/application/operations/notification_delivery.py:137-176 | a closed gate ends the receipt without a send: skipped when unwanted or without text, otherwise unreachable |
| Notifications.SendOutcome | src/hovorunv2/application/operations/notification_delivery.py:117-135 | a recorded send is delivered when accepted, retried when refused, unreachable the fifth time |
| Notifications.AcceptedIsTheLast | src/hovorunv2/application/operations/notification_delivery.py:127-135 | over every life an accepted recorded send is the last one, and the receipt is delivered for good |
| Notifications.BackoffIsMonotone | src/hovorunv2/application/operations/notification_delivery.py:178-185 | waiting never shrinks with attempts and stays between 30 and 300 seconds |
| Notifications.FifthSendWaits | src/hovorunv2/application/operations/notification_delivery.py:178-185 | the send after four recorded attempts comes at least 450 seconds after the first was recorded |
| Pagination.CursorRoundTrip | src/hovorunv2/application/operations/audit_inspection.py:145-154 | parsing a printed cursor gives back its time stamp and identity |
| Pagination.PagingIsLossless | src/hovorunv2/application/operations/audit_inspection.py:95-115 | following cursors with any limits while newer rows arrive ends and returns every wanted row once, in order |
| Pagination.WantedAfter | src/hovorunv2/infrastructure/persistence/stores/audit_query_store.py:38-43 | asking from a returned row's position gives exactly the rows after it |
| Pagination.PageHoldsExactly | src/hovorunv2/application/operations/audit_inspection.py:95-115 | a page holds the limit asked for, between one and fifty, or all that is left, and has a successor exactly when it is full |
| Pagination.WantedExactly | src/hovorunv2/infrastructure/persistence/stores/audit_query_store.py:29-38 | a query asks for exactly the rows that meet every filter given, bounds included, before the cursor |
| Pagination.CursorsReadExactly | src/hovorunv2/application/operations/audit_inspection.py:145-154 | a cursor is read exactly when it ends in a bar and a number |
| Pagination.ListGroups | src/hovorunv2/application/groups/group_management_service.py:165-192 | the loop computes one filtered page and its successor |
| Pagination.CandidatesExactly | src/hovorunv2/application/groups/group_management_service.py:176-178 | groups after the given identity are offered; whoever may not administer the bot sees only those it is in |
| Pagination.GroupPageLooksAtEight | src/hovorunv2/application/groups/group_management_service.py:178-186 | a page of groups looks at eight candidates and names the last of them when there are more |
| Pagination.GroupPagingIsLossless | src/hovorunv2/application/groups/group_management_service.py:165-192 | following group pages visits every manageable group once, in order, past pages that filter to nothing |
| AuditRedaction.SanitizeAuditChanges | src/hovorunv2/domain/audit.py:41-59 | the loop fills exactly the redacted mapping, and absent changes stay absent |
| AuditRedaction.SanitizeRedactsOnlyPrivate | src/hovorunv2/domain/audit.py:41-72 | at any depth every private field holds the marker and nothing else changed |
| AuditRedaction.SanitizeForgetsExactlyPrivate | src/hovorunv2/domain/audit.py:41-72 | two payloads come out equal exactly when they agree apart from private values |
| AuditRedaction.SanitizeIsIdempotent | src/hovorunv2/domain/audit.py:41-72 | redacting twice is redacting once |
| AuditRedaction.CredentialNamesAreSensitive | src/hovorunv2/domain/audit.py:33-38 | a key containing a credential fragment is private in whatever case it is written |
| AuditRedaction.PrivateExactly | src/hovorunv2/domain/audit.py:13-38 | private keys are the eleven names in any case, whatever mentions one of the four fragments, and no others |
| AuditRedaction.AnyCaseReadsTheSame | src/hovorunv2/domain/audit.py:33-38 | a name of small letters and underscores is recognised in every mixture of cases |

## Left out

- Telegram, HTTP, extraction, browsers, translation, captions and user notices: outcomes of those calls are
  choices of the environment; notices are kept only as ticket flags.
- Valkey, SQL and Celery plumbing: each store call is one atomic step; optimistic retries, connection
  failures after a commit (other than as a crash) and malformed stored data are not modelled.
- Retention: tickets, receipts and dedupe entries live for the whole run, so a job identity is never reused
  after its hour of retention; reservations may be evicted once settled, counters are kept.
- Cryptography and hashing: payloads are opaque and fingerprints are compared before hashing.
- Duplicate detection at admission and recovery page rotation order.
- JobGuarantees.EpochFence: the feature's log of states is taken from the admission stamp on, with the epoch
  rising by one on each switch.
- JobExecution.ExecutionFollowsTheTable: nobody else acts on the job meanwhile; interference is the subject of
  `JobGuarantees`.
- UsageLedger.LedgerRefinesEventLog: the trusted-origin check of a batch and its registry check are not part of
  it; `UsageResolution.SupportedExactly` states the latter by itself.
- QuotaCounters.QuotaIsNeverExceeded: counters do not expire while reservations are open, and arithmetic is
  over the reals.
- UsageResolution.RunnerReservationIsAcceptedExactly: the durable totals passed along and the global
  concurrency setting, which the counters also bound, are not part of it.
- RecoveryProgress.SweepChangesSettling: pages are read just before their sweep.
- RecoveryDraining.RecoveryDrains: pages are read just before their sweep.
- QuotaWorld.JobsStayWithinQuota: reservations are not evicted there, whether a replayed request changed its
  binding is a choice of the environment, and the usage ledger and the capacity totals are a world of their
  own in `JobWorld`.
- WorkerLifecycle.WorkerLifecycleService.Recover: which tickets a page holds and which stale reservations a
  reclaim looks at are inputs.
- FeatureClearing.ClearingCompletesExactly: the page is a fresh read of the tickets.
- Notifications.FifthSendWaits: the clock that records an outcome is not behind the clock that decided the
  send, and there is one sweeper.
- ReleaseNotes.PublishedExactlyOnce: notes are readable and a start is not interrupted between storing the
  body and moving the marker; markdown is read into sections outside the model.
- SettingsSessions.AcceptedOnlyWhileCurrent: fresh tokens never repeat; dropping a token after a replacement
  render is an eviction. Lookups of users and chats are one yes-or-no step.
- Pagination.CursorRoundTrip: time stamps are opaque text.
- Pagination.CursorsReadExactly: signs, spaces and underscores that the numeral parser would also take are not
  modelled, nor is the reading of the time stamp.
- Pagination.PagingIsLossless: rows appended while paging are newer than all earlier ones; the group filter
  does not change between pages.
- Pagination.ListGroups: the actor check and negative identities, both answered with an empty page, and the
  administrator check of audit queries are not modelled.
- AuditRedaction.SanitizeRedactsOnlyPrivate: nested keys are text, and recursion depth is unbounded.
- InitiativeScheme.ValidateInitiative: file contents, status tables and headers are inputs; parsing of
  manifests and of legacy initiatives is not modelled.
- Role, trust and access decisions, settings loading, bootstrap and command lines.
