/**
 * One job and everything that touches it: its admission ticket, its budget reservation, its ledger
 * receipt, and any number of worker executions and recovery sweeps. Every port call is one step.
 * Between any two steps a process may crash, another process may run, and the broker may deliver
 * the same message again.
 */
module SettlementProtocol {
  import opened Wrappers
  import opened Usage
  import opened Jobs
  import opened AdmissionState
  import opened Budgets

  // ----- State -----

  datatype EmergencyState = EmergencyState(disabled: bool, epoch: nat)

  /** Where a process is, and what it remembers from the calls it has already made. */
  datatype Pc =
    | Loading
    | SafeFinish(outcome: JobOutcome)
    | PlainFinish(outcome: JobOutcome)
    | Reserving
    | Deferring(retry: real)
    | Marking(now: real)
    | EpochCheck(now: real)
    | Extracting(now: real, seen: nat)
    | HandingOff
    | Gating(now: real)
    | StartingDelivery(now: real)
    | Delivering(now: real)
    | DeliveryOpen(now: real)
    | Accounting(now: real)
    | Completing(intent: SettlementIntent)
    | Reconciling(heldToken: string, heldSettlement: Option<SettlementIntent>)
    | Recording(intent: SettlementIntent)
    | Crediting(intent: SettlementIntent)
    | Releasing(intent: SettlementIntent)
    | ExpiringUnclaimed
    | Sweeping(ticket: AdmissionRecord)
    | ExpiringQueued(stage: JobStage, now: real)
    | ReadingExpired
    | Republishing(stage: JobStage, attempt: int, now: real)
    | Publishing(stage: JobStage)
    | FirstPublishing(notBefore: real)

  datatype Process = Process(token: string, envelope: JobEnvelope, stage: JobStage, pc: Pc)

  datatype Publication = Publication(envelope: JobEnvelope, stage: JobStage, now: real)

  /** A granted claim: when, for which stage, and the time and stage the ticket then stood at. */
  datatype ClaimMade = ClaimMade(now: real, stage: JobStage, due: real, ticketStage: JobStage)

  /** What happened so far; nothing in the system reads it. */
  datatype History = History(
    deliveryStarts: nat,
    confirmations: nat,
    receiptsWritten: nat,
    settlementsWritten: nat,
    settledWith: Option<map<UsageUnit, int>>,
    releases: nat,
    claims: seq<ClaimMade>,
    deliveries: seq<real>,
    publications: seq<Publication>,
    extractions: seq<nat>)

  datatype Cell = Cell(
    record: AdmissionRecord,
    reservation: Option<Reservation>,
    receipt: Option<UsageEvent>,
    emergency: seq<EmergencyState>,
    stamped: nat,
    processes: map<nat, Process>,
    history: History)

  // ----- Choices of the environment -----

  datatype PayloadAnswer = PayloadReady | PayloadExpired | PayloadMissing

  datatype ExtractionAnswer = Extracted | NeedsBrowser | TimedOut | ExtractionFailed

  datatype DeliveryAnswer = DeliveryConfirmed | DeliveryRejected | DeliveryUnknown

  /** Everything outside code may answer during one step; `ok` is false when the call raises. */
  datatype Input = Input(
    ok: bool,
    now: real,
    payload: PayloadAnswer,
    quota: QuotaAnswer,
    extraction: ExtractionAnswer,
    browserEnabled: bool,
    gatesOpen: bool,
    delivery: DeliveryAnswer,
    charges: seq<UsageCharge>,
    verified: bool)

  datatype Action =
    | Receive(pid: nat, envelope: JobEnvelope, stage: JobStage, now: real, token: string)
    | Step(pid: nat, input: Input)
    | Crash(pid: nat)
    | Sweep(pid: nat)
    | Enqueue(pid: nat, notBefore: real, now: real)
    | Outside(transition: Transition)
    | ExpireStaleReservation(now: real)
    | EvictReservation
    | SetEmergency(disabled: bool)

  // ----- Process bookkeeping -----

  function Resume(c: Cell, pid: nat, p: Process, pc: Pc): Cell {
    c.(processes := c.processes[pid := p.(pc := pc)])
  }

  function End(c: Cell, pid: nat): Cell {
    c.(processes := c.processes - {pid})
  }

  /** Commit one admission transaction and count the capacity it releases. */
  function Commit(c: Cell, t: Transition): Cell {
    var change := Transact(c.record, t);
    c.(record := Stored(c.record, change),
       history := c.history.(releases :=
         c.history.releases + if change.Change? && change.release then 1 else 0))
  }

  function Succeeded(c: Cell, t: Transition): bool {
    var change := Transact(c.record, t);
    change.Change? && change.record.Some?
  }

  function RaisedError(c: Cell, t: Transition): bool {
    Transact(c.record, t).Raised?
  }

  // ----- The runner -----

  /** `_parse_and_claim`: an expired message only tries to expire queued work; others need the claim. */
  function ReceiveStep(c: Cell, pid: nat, envelope: JobEnvelope, stage: JobStage, now: real, token: string): Cell {
    if pid in c.processes then c
    else if now >= envelope.deadline then
      c.(processes := c.processes[pid := Process("", envelope, stage, ExpiringUnclaimed)])
    else
      var claim := Claim(stage, now, token, Some(envelope));
      var change := Transact(c.record, claim);
      var after := Commit(c, claim);
      if change.Change? && change.success && change.record.Some? && change.record.value.state.Running? then
        var claimed := ClaimMade(now, stage, c.record.schedule.notBefore, c.record.stage);
        after.(processes := c.processes[pid := Process(token, envelope, stage, Loading)],
               history := after.history.(claims := after.history.claims + [claimed]))
      else after
  }

  /** `_load_payload` */
  function LoadStep(c: Cell, pid: nat, p: Process, input: Input): Cell {
    match input.payload
    case PayloadReady => Resume(c, pid, p, Reserving)
    case PayloadExpired => Resume(c, pid, p, SafeFinish(Expired))
    case PayloadMissing => Resume(c, pid, p, SafeFinish(PayloadUnavailable))
  }

  /** `_reserve_execution_budget` and the branches of `_handle_denied_reservation` */
  function ReserveStep(c: Cell, pid: nat, p: Process, input: Input): Cell {
    var (answer, reservation) :=
      Reserve(c.reservation, map[Requests := 1], p.envelope.deadline, input.now, input.quota);
    var after := c.(reservation := reservation);
    if answer.Failure? then End(after, pid)
    else
      match answer.value.state
      case Reserved => Resume(after, pid, p, Marking(input.now))
      case QuotaWaiting =>
        if answer.value.nextEligibleAt.None? then End(after, pid)
        else if answer.value.nextEligibleAt.value < p.envelope.deadline
        then Resume(after, pid, p, Deferring(answer.value.nextEligibleAt.value))
        else Resume(after, pid, p, SafeFinish(Expired))
      case BudgetUnavailable => End(after, pid)
      case ReservationExpired => Resume(after, pid, p, SafeFinish(Expired))
      case _ => Resume(after, pid, p, SafeFinish(Failed))
  }

  function DeferStep(c: Cell, pid: nat, p: Process, retry: real): Cell {
    var t := Defer(p.token, retry);
    if RaisedError(c, t) || Succeeded(c, t) then End(Commit(c, t), pid)
    else Resume(c, pid, p, SafeFinish(Cancelled))
  }

  /** `_finish_ticket_safe`: reserved work settles at zero, other work is finished directly. */
  function SafeFinishStep(c: Cell, pid: nat, p: Process, outcome: JobOutcome): Cell {
    if c.record.budgetReserved then Resume(c, pid, p, Completing(ZeroIntent(outcome)))
    else Resume(c, pid, p, PlainFinish(outcome))
  }

  /** `mark_reserved`, then the cancellation fence of `_execute_reserved` */
  function MarkStep(c: Cell, pid: nat, p: Process, now: real): Cell {
    var t := MarkReserved(p.token);
    var after := Commit(c, t);
    if !Succeeded(c, t) then End(after, pid)
    else if after.record.state.Cancelling? then Resume(after, pid, p, Completing(ZeroIntent(Cancelled)))
    else Resume(after, pid, p, EpochCheck(now))
  }

  predicate EnvelopeIsCurrent(epoch: nat, state: EmergencyState) {
    !state.disabled && state.epoch == epoch
  }

  function EpochStep(c: Cell, pid: nat, p: Process, now: real): Cell {
    if c.emergency != [] && EnvelopeIsCurrent(p.envelope.featureEpoch, c.emergency[|c.emergency| - 1])
    then Resume(c, pid, p, Extracting(now, |c.emergency| - 1))
    else Resume(c, pid, p, Completing(ZeroIntent(Cancelled)))
  }

  function ExtractStep(c: Cell, pid: nat, p: Process, now: real, seen: nat, input: Input): Cell {
    var after := c.(history := c.history.(extractions := c.history.extractions + [seen]));
    match input.extraction
    case Extracted => Resume(after, pid, p, Gating(now))
    case NeedsBrowser =>
      if p.stage.Browser? then End(after, pid)
      else if input.browserEnabled then Resume(after, pid, p, HandingOff)
      else Resume(after, pid, p, Completing(ZeroIntent(Failed)))
    case TimedOut => Resume(after, pid, p, Completing(ZeroIntent(Expired)))
    case ExtractionFailed => Resume(after, pid, p, Completing(ZeroIntent(Failed)))
  }

  /** `_handoff_to_browser` */
  function HandoffStep(c: Cell, pid: nat, p: Process): Cell {
    var t := Handoff(p.token, Browser);
    if RaisedError(c, t) then End(c, pid)
    else if Succeeded(c, t) then Resume(Commit(c, t), pid, p, Publishing(Browser))
    else Resume(c, pid, p, Completing(ZeroIntent(Cancelled)))
  }

  /** `publish_stage` sends nothing at or past the deadline. */
  function PublishStep(c: Cell, pid: nat, p: Process, stage: JobStage, now: real): Cell {
    var after :=
      if now < p.envelope.deadline then
        c.(history := c.history.(publications :=
             c.history.publications + [Publication(p.envelope, stage, now)]))
      else c;
    End(after, pid)
  }

  /** The bot's own publication: the message becomes due at its scheduled time, which must lie before the deadline. */
  function FirstPublishStep(c: Cell, pid: nat, p: Process, notBefore: real, now: real): Cell {
    var due := if now < notBefore then notBefore else now;
    var after :=
      if due < p.envelope.deadline then
        c.(history := c.history.(publications := c.history.publications + [Publication(p.envelope, Media, due)]))
      else c;
    End(after, pid)
  }

  /** `enqueue`: register the schedule once, then publish if nobody has. */
  function EnqueueStep(c: Cell, pid: nat, notBefore: real, now: real): Cell {
    var envelope := c.record.envelope;
    if pid in c.processes || notBefore < 0.0 || now >= envelope.deadline || notBefore >= envelope.deadline then c
    else
      var t := Register(envelope, notBefore);
      var change := Transact(c.record, t);
      var after := Commit(c, t);
      if change.Change? && change.shouldPublish && change.record.Some? then
        after.(processes := c.processes[pid :=
          Process("", envelope, Media, FirstPublishing(change.record.value.schedule.notBefore))])
      else after
  }

  /** `_check_post_extraction_gates` */
  function GateStep(c: Cell, pid: nat, p: Process, now: real, input: Input): Cell {
    if input.gatesOpen then Resume(c, pid, p, StartingDelivery(now))
    else Resume(c, pid, p, Completing(ZeroIntent(Complete)))
  }

  function StartDeliveryStep(c: Cell, pid: nat, p: Process, now: real, input: Input): Cell {
    var t := BeginDelivery(p.token, input.now);
    if RaisedError(c, t) then End(c, pid)
    else if Succeeded(c, t) then
      var after := Commit(c, t);
      Resume(after.(history := after.history.(deliveries := after.history.deliveries + [input.now])), pid, p,
             Delivering(now))
    else Resume(c, pid, p, Completing(ZeroIntent(Cancelled)))
  }

  /** `deliver` is called: from here on Telegram may have accepted the message. */
  function DeliverStep(c: Cell, pid: nat, p: Process, now: real): Cell {
    Resume(c.(history := c.history.(deliveryStarts := c.history.deliveryStarts + 1)), pid, p, DeliveryOpen(now))
  }

  function DeliveryReturnStep(c: Cell, pid: nat, p: Process, now: real, input: Input): Cell {
    match input.delivery
    case DeliveryUnknown => End(c, pid)
    case DeliveryRejected => Resume(c, pid, p, Completing(ZeroIntent(Failed)))
    case DeliveryConfirmed =>
      Resume(c.(history := c.history.(confirmations := c.history.confirmations + 1)), pid, p, Accounting(now))
  }

  /** Building an invalid receipt or intent raises. */
  function AccountStep(c: Cell, pid: nat, p: Process, now: real, input: Input): Cell {
    var intent := ChargedIntent(p.envelope, input.charges, now);
    if ValidIntent(intent) then Resume(c, pid, p, Completing(intent)) else End(c, pid)
  }

  // ----- WorkerLifecycleService.complete and reconcile -----

  function CompleteStep(c: Cell, pid: nat, p: Process, intent: SettlementIntent): Cell {
    var t := Prepare(p.token, intent);
    if Succeeded(c, t) then
      var after := Commit(c, t);
      Resume(after, pid, p, Reconciling(after.record.token, after.record.settlement))
    else End(c, pid)
  }

  /** `_current_settlement` and the state checks at the head of `reconcile` */
  function ReconcileStep(
    c: Cell, pid: nat, p: Process, heldToken: string, heldSettlement: Option<SettlementIntent>): Cell
  {
    var r := c.record;
    if r.token != heldToken || r.settlement != heldSettlement then End(c, pid)
    else if !r.state.Settling? || r.settlement.None? || r.token == "" then End(c, pid)
    else
      var intent := r.settlement.value;
      var owner := p.(token := r.token);
      if intent.event.Some? then Resume(c, pid, owner, Recording(intent))
      else if intent.actual != [] then Resume(c, pid, owner, Crediting(intent))
      else Resume(c, pid, owner, Releasing(intent))
  }

  /** `apply_batch` with the job's one receipt: written once, replayed as a no-op, refused if different. */
  function RecordStep(c: Cell, pid: nat, p: Process, intent: SettlementIntent): Cell {
    var next := if intent.actual != [] then Crediting(intent) else Releasing(intent);
    if c.receipt.None? then
      Resume(c.(receipt := intent.event,
                history := c.history.(receiptsWritten := c.history.receiptsWritten + 1)), pid, p, next)
    else if c.receipt == intent.event then Resume(c, pid, p, next)
    else End(c, pid)
  }

  function CreditStep(c: Cell, pid: nat, p: Process, intent: SettlementIntent, input: Input): Cell {
    var (answer, reservation) := FinishReservation(c.reservation, intent.actual, input.now, input.verified);
    var wrote := reservation != c.reservation;
    var after := c.(
      reservation := reservation,
      history := if wrote
        then c.history.(settlementsWritten := c.history.settlementsWritten + 1, settledWith := reservation.value.actual)
        else c.history);
    if answer.Success? && Settled(answer.value) then Resume(after, pid, p, Releasing(intent)) else End(after, pid)
  }

  // ----- Recovery -----

  /** `_recover_ticket`, deciding on the page's snapshot and a fresh clock reading */
  function SweepStep(c: Cell, pid: nat, p: Process, ticket: AdmissionRecord, now: real): Cell {
    if ticket.state.Settling? then Resume(c, pid, p, Reconciling(ticket.token, ticket.settlement))
    else if !Queued(ticket.state) then End(c, pid)
    else if now >= ticket.envelope.deadline then Resume(c, pid, p, ExpiringQueued(ticket.stage, now))
    else if now < ticket.schedule.notBefore then End(c, pid)
    else Resume(c, pid, p, Republishing(ticket.stage, ticket.attempt, now))
  }

  function ReadExpiredStep(c: Cell, pid: nat, p: Process): Cell {
    if c.record.state.Settling? then Resume(c, pid, p, Reconciling(c.record.token, c.record.settlement))
    else End(c, pid)
  }

  function RepublishStep(c: Cell, pid: nat, p: Process, stage: JobStage, attempt: int, now: real): Cell {
    var change := Transact(c.record, Republish(stage, attempt, now));
    if change.Change? && change.success
    then Resume(Commit(c, Republish(stage, attempt, now)), pid, p, Publishing(stage))
    else End(c, pid)
  }

  // ----- One action -----

  function ProcessStep(c: Cell, pid: nat, p: Process, input: Input): Cell {
    if !input.ok then End(c, pid)
    else
      match p.pc
      case Loading => LoadStep(c, pid, p, input)
      case SafeFinish(outcome) => SafeFinishStep(c, pid, p, outcome)
      case PlainFinish(outcome) => End(Commit(c, Finish(outcome, p.token)), pid)
      case Reserving => ReserveStep(c, pid, p, input)
      case Deferring(retry) => DeferStep(c, pid, p, retry)
      case Marking(now) => MarkStep(c, pid, p, now)
      case EpochCheck(now) => EpochStep(c, pid, p, now)
      case Extracting(now, seen) => ExtractStep(c, pid, p, now, seen, input)
      case HandingOff => HandoffStep(c, pid, p)
      case Gating(now) => GateStep(c, pid, p, now, input)
      case StartingDelivery(now) => StartDeliveryStep(c, pid, p, now, input)
      case Delivering(now) => DeliverStep(c, pid, p, now)
      case DeliveryOpen(now) => DeliveryReturnStep(c, pid, p, now, input)
      case Accounting(now) => AccountStep(c, pid, p, now, input)
      case Completing(intent) => CompleteStep(c, pid, p, intent)
      case Reconciling(token, settlement) => ReconcileStep(c, pid, p, token, settlement)
      case Recording(intent) => RecordStep(c, pid, p, intent)
      case Crediting(intent) => CreditStep(c, pid, p, intent, input)
      case Releasing(intent) => End(Commit(c, Finish(intent.outcome, p.token)), pid)
      case ExpiringUnclaimed => End(Commit(c, Finish(Expired, "")), pid)
      case Sweeping(ticket) => SweepStep(c, pid, p, ticket, input.now)
      case ExpiringQueued(stage, now) =>
        Resume(Commit(c, Claim(stage, now, "expiry", None)), pid, p, ReadingExpired)
      case ReadingExpired => ReadExpiredStep(c, pid, p)
      case Republishing(stage, attempt, now) => RepublishStep(c, pid, p, stage, attempt, now)
      case Publishing(stage) => PublishStep(c, pid, p, stage, input.now)
      case FirstPublishing(notBefore) => FirstPublishStep(c, pid, p, notBefore, input.now)
  }

  /** Transitions made outside the worker: cancellation, enqueueing and feedback claims. */
  predicate FromOutside(t: Transition) {
    t.Cancel? || t.MarkEnqueued? || t.Register? || t.AckPublication? || t.ClaimNotice?
  }

  function Act(c: Cell, a: Action): Cell {
    match a
    case Receive(pid, envelope, stage, now, token) => ReceiveStep(c, pid, envelope, stage, now, token)
    case Step(pid, input) => if pid in c.processes then ProcessStep(c, pid, c.processes[pid], input) else c
    case Crash(pid) => End(c, pid)
    case Sweep(pid) =>
      if pid in c.processes then c
      else c.(processes := c.processes[pid := Process("", c.record.envelope, c.record.stage, Sweeping(c.record))])
    case Enqueue(pid, notBefore, now) => EnqueueStep(c, pid, notBefore, now)
    case Outside(t) => if FromOutside(t) then Commit(c, t) else c
    case ExpireStaleReservation(now) => c.(reservation := ExpireStale(c.reservation, now))
    case EvictReservation =>
      if c.reservation.Some? && !c.reservation.value.state.Reserved? then c.(reservation := None) else c
    case SetEmergency(disabled) =>
      c.(emergency := c.emergency + [EmergencyState(disabled, |c.emergency|)])
  }

  function Run(c: Cell, actions: seq<Action>): Cell
    decreases |actions|
  {
    if actions == [] then c else Run(Act(c, actions[0]), actions[1..])
  }

  // ----- Starting cells -----

  predicate WellFormedLog(log: seq<EmergencyState>) {
    log != [] && forall i :: 0 <= i < |log| ==> log[i].epoch == i
  }

  /**
   * A job just accepted: its envelope carries the epoch read when the feature was enabled, and the
   * feature may already have changed since.
   */
  predicate Initial(c: Cell) {
    && ValidEnvelope(c.record.envelope) && c.record.byteSize > 0
    && c.record == InitialRecord(c.record.envelope, c.record.byteSize)
    && c.reservation.None? && c.receipt.None?
    && WellFormedLog(c.emergency)
    && c.stamped < |c.emergency| && !c.emergency[c.stamped].disabled
    && c.record.envelope.featureEpoch == c.emergency[c.stamped].epoch
    && c.processes == map[]
    && c.history == History(0, 0, 0, 0, None, 0, [], [], [], [])
  }

  // ----- The invariant -----

  /** The process counts on being the ticket's execution owner. */
  predicate Holding(pc: Pc) {
    match pc
    case Loading => true
    case SafeFinish(_) => true
    case PlainFinish(_) => true
    case Reserving => true
    case Deferring(_) => true
    case Marking(_) => true
    case EpochCheck(_) => true
    case Extracting(_, _) => true
    case HandingOff => true
    case Gating(_) => true
    case StartingDelivery(_) => true
    case Delivering(_) => true
    case DeliveryOpen(_) => true
    case Accounting(_) => true
    case Completing(_) => true
    case _ => false
  }

  predicate OwnsBeforeDelivery(r: AdmissionRecord, p: Process) {
    r.token == p.token && p.token != "" && (r.state.Running? || r.state.Cancelling?)
  }

  predicate OwnsDelivery(r: AdmissionRecord, p: Process) {
    r.token == p.token && p.token != "" && r.state.DeliveryUncertain?
  }

  predicate ReceiptDone(c: Cell, intent: SettlementIntent) {
    intent.event.Some? ==> c.receipt == intent.event
  }

  predicate BudgetDone(c: Cell, intent: SettlementIntent) {
    intent.actual != [] ==> c.history.settledWith == Some(Amounts(intent.actual))
  }

  /** The only amounts a job ever settles: one request, consumed or not. */
  predicate OneRequest(actual: seq<UnitAmount>) {
    actual == [UnitAmount(Requests, 0)] || actual == [UnitAmount(Requests, 1)]
  }

  predicate Settles(r: AdmissionRecord, p: Process, intent: SettlementIntent) {
    r.settlement == Some(intent) && r.token == p.token && p.token != ""
  }

  /** What each process may rely on at its own program point, whatever the others do. */
  predicate ProcessInv(c: Cell, p: Process) {
    && (p.pc.ExpiringUnclaimed? || p.envelope == c.record.envelope)
    && (Holding(p.pc) ==> p.stage == c.record.stage)
    && match p.pc
       case Extracting(_, seen) => OwnsBeforeDelivery(c.record, p) && seen == c.stamped
       case Delivering(_) => OwnsDelivery(c.record, p) && c.history.deliveryStarts == 0
       case DeliveryOpen(_) =>
         OwnsDelivery(c.record, p) && c.history.deliveryStarts == 1 && c.history.confirmations == 0
       case Accounting(_) => OwnsDelivery(c.record, p) && c.history.confirmations == 1
       case Completing(intent) =>
         && (OwnsBeforeDelivery(c.record, p) || OwnsDelivery(c.record, p))
         && OneRequest(intent.actual)
         && (intent.event.Some? ==> c.history.confirmations == 1)
       case Recording(intent) => Settles(c.record, p, intent) && intent.event.Some?
       case Crediting(intent) => Settles(c.record, p, intent) && intent.actual != [] && ReceiptDone(c, intent)
       case Releasing(intent) => Settles(c.record, p, intent) && ReceiptDone(c, intent) && BudgetDone(c, intent)
       case Sweeping(ticket) => ticket.envelope == c.record.envelope
       case ExpiringQueued(_, now) => now >= c.record.envelope.deadline
       case _ => Holding(p.pc) ==> OwnsBeforeDelivery(c.record, p)
  }

  /** At most one process counts on owning the ticket. */
  predicate OneHolder(c: Cell) {
    forall a, b :: a in c.processes && b in c.processes && Holding(c.processes[a].pc) && Holding(c.processes[b].pc)
      ==> a == b
  }

  predicate Untouched(c: Cell) {
    && c.receipt.None? && c.history.settlementsWritten == 0 && c.history.settledWith.None?
  }

  /** How far delivery may have gone in each ticket state. */
  predicate DeliveryFacts(c: Cell) {
    && c.history.deliveryStarts <= 1
    && c.history.confirmations <= c.history.deliveryStarts
    && (Progress(c.record.state) == 0 ==> c.history.deliveryStarts == 0)
    && (Progress(c.record.state) <= 1 ==> Untouched(c))
    && (c.record.settlement.Some? ==>
          && OneRequest(c.record.settlement.value.actual)
          && (c.record.settlement.value.event.Some? ==> c.history.confirmations == 1))
  }

  /** How the three backends agree. */
  predicate AccountingFacts(c: Cell) {
    && c.history.receiptsWritten == (if c.receipt.Some? then 1 else 0)
    && c.history.settlementsWritten == (if c.history.settledWith.Some? then 1 else 0)
    && (c.receipt.Some? ==>
          c.record.settlement.Some? && c.record.settlement.value.event == c.receipt)
    && (c.history.settledWith.Some? ==>
          && c.record.settlement.Some? && c.record.settlement.value.actual != []
          && c.history.settledWith == Some(Amounts(c.record.settlement.value.actual)))
    && (c.record.state.Terminal? && c.record.settlement.Some? ==>
          && c.record.outcome == Some(c.record.settlement.value.outcome)
          && ReceiptDone(c, c.record.settlement.value)
          && BudgetDone(c, c.record.settlement.value))
    && c.history.releases == (if c.record.state.Terminal? then 1 else 0)
  }

  predicate ReservationFacts(reservation: Option<Reservation>, settledWith: Option<map<UsageUnit, int>>) {
    reservation.Some? ==>
      && reservation.value.estimates == map[Requests := 1]
      && match reservation.value.state
         case Reserved => settledWith.None? && reservation.value.actual.None?
         case Committed => settledWith.Some? && reservation.value.actual == settledWith
         case Credited => settledWith.Some? && reservation.value.actual == settledWith
         case ReservationExpired => reservation.value.actual.None?
         case _ => false
  }

  predicate EmergencyFacts(log: seq<EmergencyState>, stamped: nat, epoch: nat, extractions: seq<nat>) {
    && WellFormedLog(log)
    && stamped < |log| && !log[stamped].disabled
    && epoch == stamped
    && (forall i :: 0 <= i < |extractions| ==> extractions[i] == stamped)
  }

  predicate AllBefore(times: seq<real>, deadline: real) {
    forall i :: 0 <= i < |times| ==> times[i] < deadline
  }

  /** Claims were granted for the ticket's own stage, not before its time and before its deadline. */
  predicate AllDue(claims: seq<ClaimMade>, deadline: real) {
    forall i :: 0 <= i < |claims| ==>
      claims[i].due <= claims[i].now < deadline && claims[i].stage == claims[i].ticketStage
  }

  predicate AllPublishedBefore(publications: seq<Publication>, envelope: JobEnvelope) {
    forall i :: 0 <= i < |publications| ==>
      publications[i].envelope == envelope && publications[i].now < envelope.deadline
  }

  predicate Facts(c: Cell) {
    && Shape(c.record)
    && DeliveryFacts(c)
    && AccountingFacts(c)
    && ReservationFacts(c.reservation, c.history.settledWith)
    && EmergencyFacts(c.emergency, c.stamped, c.record.envelope.featureEpoch, c.history.extractions)
    && AllDue(c.history.claims, c.record.envelope.deadline)
    && AllBefore(c.history.deliveries, c.record.envelope.deadline)
    && AllPublishedBefore(c.history.publications, c.record.envelope)
  }

  predicate Inv(c: Cell) {
    Facts(c) && OneHolder(c) && forall pid :: pid in c.processes ==> ProcessInv(c, c.processes[pid])
  }

  // ----- Frames: what a step by one process leaves intact for the others -----

  /** Facts every step keeps: identity, and whatever has been settled. */
  predicate KeepsSettled(c: Cell, after: Cell) {
    && after.record.envelope == c.record.envelope
    && after.stamped == c.stamped
    && (c.record.settlement.Some? ==>
          after.record.settlement == c.record.settlement && after.record.token == c.record.token)
    && (c.receipt.Some? ==> after.receipt == c.receipt)
    && (c.history.settledWith.Some? ==> after.history.settledWith == c.history.settledWith)
  }

  /** Facts a step by anyone but the owner keeps for the owner. */
  predicate KeepsOwner(c: Cell, after: Cell) {
    && after.history.deliveryStarts == c.history.deliveryStarts
    && after.history.confirmations == c.history.confirmations
    && (Owned(c.record.state) && !c.record.state.Settling? ==>
          && after.record.token == c.record.token && after.record.stage == c.record.stage
          && (after.record.state == c.record.state || (c.record.state.Running? && after.record.state.Cancelling?)))
  }

  lemma OtherKeeps(c: Cell, after: Cell, q: Process)
    requires ProcessInv(c, q) && KeepsSettled(c, after)
    requires KeepsOwner(c, after) || !Holding(q.pc)
    ensures ProcessInv(after, q)
  {
  }

  lemma Here(c: Cell, pid: nat)
    requires Inv(c) && pid in c.processes
    ensures Facts(c) && ProcessInv(c, c.processes[pid])
  {
  }

  /** Process `pid` turned the shared state into `changed` and moved on to `next`. */
  lemma MoveTo(c: Cell, changed: Cell, pid: nat, next: Process)
    requires Inv(c) && pid in c.processes && changed.processes == c.processes
    requires Facts(changed) && KeepsSettled(c, changed)
    requires KeepsOwner(c, changed) || Holding(c.processes[pid].pc)
    requires ProcessInv(changed, next)
    requires Holding(next.pc) ==> Holding(c.processes[pid].pc)
    ensures Inv(changed.(processes := c.processes[pid := next]))
  {
    var after := changed.(processes := c.processes[pid := next]);
    forall q | q in after.processes ensures ProcessInv(after, after.processes[q]) {
      if q != pid { OtherKeeps(c, changed, c.processes[q]); }
    }
  }

  /** Process `pid` turned the shared state into `changed` and ended. */
  lemma EndWith(c: Cell, changed: Cell, pid: nat)
    requires Inv(c) && pid in c.processes && changed.processes == c.processes
    requires Facts(changed) && KeepsSettled(c, changed)
    requires KeepsOwner(c, changed) || Holding(c.processes[pid].pc)
    ensures Inv(End(changed, pid))
  {
    var after := End(changed, pid);
    forall q | q in after.processes ensures ProcessInv(after, after.processes[q]) {
      OtherKeeps(c, changed, c.processes[q]);
    }
  }

  /** The shared state did not change. */
  lemma MoveOn(c: Cell, pid: nat, next: Process)
    requires Inv(c) && pid in c.processes && ProcessInv(c, next)
    requires Holding(next.pc) ==> Holding(c.processes[pid].pc)
    ensures Inv(c.(processes := c.processes[pid := next]))
  {
    MoveTo(c, c, pid, next);
  }

  lemma EndHere(c: Cell, pid: nat)
    requires Inv(c)
    ensures Inv(End(c, pid))
  {
    if pid in c.processes { EndWith(c, c, pid); } else { assert c.processes - {pid} == c.processes; }
  }

  // ----- Every step keeps the invariant -----

  lemma LoadKeeps(c: Cell, pid: nat, p: Process, input: Input)
    requires Inv(c) && pid in c.processes && p == c.processes[pid] && p.pc.Loading?
    ensures Inv(LoadStep(c, pid, p, input))
  {
    hide Inv, EmergencyFacts, AllBefore, AllDue, AllPublishedBefore, ValidRecord, ValidIntent;
    Here(c, pid);
    match input.payload {
      case PayloadReady => MoveOn(c, pid, p.(pc := Reserving));
      case PayloadExpired => MoveOn(c, pid, p.(pc := SafeFinish(Expired)));
      case PayloadMissing => MoveOn(c, pid, p.(pc := SafeFinish(PayloadUnavailable)));
    }
  }

  lemma SafeFinishKeeps(c: Cell, pid: nat, p: Process)
    requires Inv(c) && pid in c.processes && p == c.processes[pid] && p.pc.SafeFinish?
    ensures Inv(SafeFinishStep(c, pid, p, p.pc.outcome))
  {
    hide Inv, EmergencyFacts, AllBefore, AllDue, AllPublishedBefore, ValidRecord, ValidIntent;
    Here(c, pid);
    MoveOn(c, pid,
      p.(pc := if c.record.budgetReserved then Completing(ZeroIntent(p.pc.outcome)) else PlainFinish(p.pc.outcome)));
  }

  lemma PlainFinishKeeps(c: Cell, pid: nat, p: Process)
    requires Inv(c) && pid in c.processes && p == c.processes[pid] && p.pc.PlainFinish?
    ensures Inv(End(Commit(c, Finish(p.pc.outcome, p.token)), pid))
  {
    hide Inv, EmergencyFacts, AllBefore, AllDue, AllPublishedBefore, ValidRecord, ValidIntent;
    Here(c, pid);
    EndWith(c, Commit(c, Finish(p.pc.outcome, p.token)), pid);
  }

  lemma ReserveKeeps(c: Cell, pid: nat, p: Process, input: Input)
    requires Inv(c) && pid in c.processes && p == c.processes[pid] && p.pc.Reserving?
    ensures Inv(ReserveStep(c, pid, p, input))
  {
    hide Inv, EmergencyFacts, AllBefore, AllDue, AllPublishedBefore, ValidRecord, ValidIntent;
    Here(c, pid);
    var (answer, reservation) :=
      Reserve(c.reservation, map[Requests := 1], p.envelope.deadline, input.now, input.quota);
    var changed := c.(reservation := reservation);
    var after := ReserveStep(c, pid, p, input);
    if after == End(changed, pid) { EndWith(c, changed, pid); } else { MoveTo(c, changed, pid, after.processes[pid]); }
  }

  lemma DeferKeeps(c: Cell, pid: nat, p: Process)
    requires Inv(c) && pid in c.processes && p == c.processes[pid] && p.pc.Deferring?
    ensures Inv(DeferStep(c, pid, p, p.pc.retry))
  {
    hide Inv, EmergencyFacts, AllBefore, AllDue, AllPublishedBefore, ValidRecord, ValidIntent;
    Here(c, pid);
    var t := Defer(p.token, p.pc.retry);
    if RaisedError(c, t) || Succeeded(c, t) { EndWith(c, Commit(c, t), pid); }
    else { MoveOn(c, pid, p.(pc := SafeFinish(Cancelled))); }
  }

  lemma MarkKeeps(c: Cell, pid: nat, p: Process)
    requires Inv(c) && pid in c.processes && p == c.processes[pid] && p.pc.Marking?
    ensures Inv(MarkStep(c, pid, p, p.pc.now))
  {
    hide Inv, EmergencyFacts, AllBefore, AllDue, AllPublishedBefore, ValidRecord, ValidIntent;
    Here(c, pid);
    var t := MarkReserved(p.token);
    var changed := Commit(c, t);
    if !Succeeded(c, t) { EndWith(c, changed, pid); }
    else {
      MoveTo(c, changed, pid,
        p.(pc := if changed.record.state.Cancelling? then Completing(ZeroIntent(Cancelled)) else EpochCheck(p.pc.now)));
    }
  }

  /** An epoch is reached once, so a matching enabled epoch is the very state the job was stamped with. */
  lemma CurrentEpochIsTheStamp(log: seq<EmergencyState>, stamped: nat, epoch: nat, extractions: seq<nat>)
    requires EmergencyFacts(log, stamped, epoch, extractions)
    ensures log != [] && log[|log| - 1].epoch == |log| - 1
    ensures EnvelopeIsCurrent(epoch, log[|log| - 1]) ==> stamped == |log| - 1
  {
  }

  lemma EpochKeeps(c: Cell, pid: nat, p: Process)
    requires Inv(c) && pid in c.processes && p == c.processes[pid] && p.pc.EpochCheck?
    ensures Inv(EpochStep(c, pid, p, p.pc.now))
  {
    hide Inv, EmergencyFacts, AllBefore, AllDue, AllPublishedBefore, ValidRecord, ValidIntent;
    Here(c, pid);
    CurrentEpochIsTheStamp(c.emergency, c.stamped, c.record.envelope.featureEpoch, c.history.extractions);
    MoveOn(c, pid,
      p.(pc := if EnvelopeIsCurrent(p.envelope.featureEpoch, c.emergency[|c.emergency| - 1])
               then Extracting(p.pc.now, |c.emergency| - 1) else Completing(ZeroIntent(Cancelled))));
  }

  lemma ExtractionKeepsEmergencyFacts(
    log: seq<EmergencyState>, stamped: nat, epoch: nat, extractions: seq<nat>, seen: nat)
    requires EmergencyFacts(log, stamped, epoch, extractions) && seen == stamped
    ensures EmergencyFacts(log, stamped, epoch, extractions + [seen])
  {
  }

  lemma ExtractKeeps(c: Cell, pid: nat, p: Process, input: Input)
    requires Inv(c) && pid in c.processes && p == c.processes[pid] && p.pc.Extracting?
    ensures Inv(ExtractStep(c, pid, p, p.pc.now, p.pc.seen, input))
  {
    hide Inv, EmergencyFacts, AllBefore, AllDue, AllPublishedBefore, ValidRecord, ValidIntent;
    Here(c, pid);
    var changed := c.(history := c.history.(extractions := c.history.extractions + [p.pc.seen]));
    ExtractionKeepsEmergencyFacts(
      c.emergency, c.stamped, c.record.envelope.featureEpoch, c.history.extractions, p.pc.seen);
    match input.extraction {
      case Extracted => MoveTo(c, changed, pid, p.(pc := Gating(p.pc.now)));
      case NeedsBrowser =>
        if p.stage.Browser? { EndWith(c, changed, pid); }
        else {
          MoveTo(c, changed, pid,
            p.(pc := if input.browserEnabled then HandingOff else Completing(ZeroIntent(Failed))));
        }
      case TimedOut => MoveTo(c, changed, pid, p.(pc := Completing(ZeroIntent(Expired))));
      case ExtractionFailed => MoveTo(c, changed, pid, p.(pc := Completing(ZeroIntent(Failed))));
    }
  }

  lemma HandoffKeeps(c: Cell, pid: nat, p: Process)
    requires Inv(c) && pid in c.processes && p == c.processes[pid] && p.pc.HandingOff?
    ensures Inv(HandoffStep(c, pid, p))
  {
    hide Inv, EmergencyFacts, AllBefore, AllDue, AllPublishedBefore, ValidRecord, ValidIntent;
    Here(c, pid);
    var t := Handoff(p.token, Browser);
    if RaisedError(c, t) { EndHere(c, pid); }
    else if Succeeded(c, t) { MoveTo(c, Commit(c, t), pid, p.(pc := Publishing(Browser))); }
    else { MoveOn(c, pid, p.(pc := Completing(ZeroIntent(Cancelled)))); }
  }

  lemma AllDueSnoc(claims: seq<ClaimMade>, deadline: real, claimed: ClaimMade)
    requires AllDue(claims, deadline)
    requires claimed.due <= claimed.now < deadline && claimed.stage == claimed.ticketStage
    ensures AllDue(claims + [claimed], deadline)
  {
  }

  lemma AllBeforeSnoc(times: seq<real>, deadline: real, now: real)
    requires AllBefore(times, deadline) && now < deadline
    ensures AllBefore(times + [now], deadline)
  {
  }

  lemma PublishKeeps(c: Cell, pid: nat, p: Process, now: real)
    requires Inv(c) && pid in c.processes && p == c.processes[pid] && p.pc.Publishing?
    ensures Inv(PublishStep(c, pid, p, p.pc.stage, now))
  {
    hide Inv, EmergencyFacts, AllBefore, AllDue, ValidRecord, ValidIntent;
    Here(c, pid);
    if now < p.envelope.deadline {
      var publications := c.history.publications + [Publication(p.envelope, p.pc.stage, now)];
      EndWith(c, c.(history := c.history.(publications := publications)), pid);
    } else {
      EndHere(c, pid);
    }
  }

  lemma FirstPublishKeeps(c: Cell, pid: nat, p: Process, now: real)
    requires Inv(c) && pid in c.processes && p == c.processes[pid] && p.pc.FirstPublishing?
    ensures Inv(FirstPublishStep(c, pid, p, p.pc.notBefore, now))
  {
    hide Inv, EmergencyFacts, AllBefore, AllDue, ValidRecord, ValidIntent;
    Here(c, pid);
    var due := if now < p.pc.notBefore then p.pc.notBefore else now;
    if due < p.envelope.deadline {
      var publications := c.history.publications + [Publication(p.envelope, Media, due)];
      EndWith(c, c.(history := c.history.(publications := publications)), pid);
    } else {
      EndHere(c, pid);
    }
  }

  lemma GateKeeps(c: Cell, pid: nat, p: Process, input: Input)
    requires Inv(c) && pid in c.processes && p == c.processes[pid] && p.pc.Gating?
    ensures Inv(GateStep(c, pid, p, p.pc.now, input))
  {
    hide Inv, EmergencyFacts, AllBefore, AllDue, AllPublishedBefore, ValidRecord, ValidIntent;
    Here(c, pid);
    MoveOn(c, pid, p.(pc := if input.gatesOpen then StartingDelivery(p.pc.now) else Completing(ZeroIntent(Complete))));
  }

  lemma StartDeliveryKeeps(c: Cell, pid: nat, p: Process, input: Input)
    requires Inv(c) && pid in c.processes && p == c.processes[pid] && p.pc.StartingDelivery?
    ensures Inv(StartDeliveryStep(c, pid, p, p.pc.now, input))
  {
    hide Inv, EmergencyFacts, AllBefore, AllDue, AllPublishedBefore, ValidRecord, ValidIntent;
    Here(c, pid);
    var t := BeginDelivery(p.token, input.now);
    if RaisedError(c, t) { EndHere(c, pid); }
    else if Succeeded(c, t) {
      AllBeforeSnoc(c.history.deliveries, c.record.envelope.deadline, input.now);
      var after := Commit(c, t);
      MoveTo(c, after.(history := after.history.(deliveries := after.history.deliveries + [input.now])), pid,
        p.(pc := Delivering(p.pc.now)));
    } else { MoveOn(c, pid, p.(pc := Completing(ZeroIntent(Cancelled)))); }
  }

  lemma DeliverKeeps(c: Cell, pid: nat, p: Process)
    requires Inv(c) && pid in c.processes && p == c.processes[pid] && p.pc.Delivering?
    ensures Inv(DeliverStep(c, pid, p, p.pc.now))
  {
    hide Inv, EmergencyFacts, AllBefore, AllDue, AllPublishedBefore, ValidRecord, ValidIntent;
    Here(c, pid);
    MoveTo(c, c.(history := c.history.(deliveryStarts := c.history.deliveryStarts + 1)), pid,
      p.(pc := DeliveryOpen(p.pc.now)));
  }

  lemma DeliveryReturnKeeps(c: Cell, pid: nat, p: Process, input: Input)
    requires Inv(c) && pid in c.processes && p == c.processes[pid] && p.pc.DeliveryOpen?
    ensures Inv(DeliveryReturnStep(c, pid, p, p.pc.now, input))
  {
    hide Inv, EmergencyFacts, AllBefore, AllDue, AllPublishedBefore, ValidRecord, ValidIntent;
    Here(c, pid);
    match input.delivery {
      case DeliveryUnknown => EndHere(c, pid);
      case DeliveryRejected => MoveOn(c, pid, p.(pc := Completing(ZeroIntent(Failed))));
      case DeliveryConfirmed =>
        MoveTo(c, c.(history := c.history.(confirmations := c.history.confirmations + 1)), pid,
          p.(pc := Accounting(p.pc.now)));
    }
  }

  lemma AccountKeeps(c: Cell, pid: nat, p: Process, input: Input)
    requires Inv(c) && pid in c.processes && p == c.processes[pid] && p.pc.Accounting?
    ensures Inv(AccountStep(c, pid, p, p.pc.now, input))
  {
    hide Inv, EmergencyFacts, AllBefore, AllDue, AllPublishedBefore, ValidRecord, ValidIntent;
    Here(c, pid);
    var intent := ChargedIntent(p.envelope, input.charges, p.pc.now);
    if ValidIntent(intent) { MoveOn(c, pid, p.(pc := Completing(intent))); } else { EndHere(c, pid); }
  }

  /** What a successful preparation leaves on the ticket. */
  lemma PreparedTicket(r: AdmissionRecord, token: string, intent: SettlementIntent)
    requires Shape(r)
    ensures var change := Transact(r, Prepare(token, intent)); var after := Applied(r, Prepare(token, intent));
      change.Change? && change.record.Some? ==>
        && !change.release && Shape(after)
        && after == r.(state := Settling, settlement := Some(intent)) && r.token == token
        && Owned(r.state) && (r.settlement.Some? ==> r.settlement == Some(intent))
  {
    hide ValidRecord;
  }

  lemma CompleteKeeps(c: Cell, pid: nat, p: Process)
    requires Inv(c) && pid in c.processes && p == c.processes[pid] && p.pc.Completing?
    ensures Inv(CompleteStep(c, pid, p, p.pc.intent))
  {
    hide Inv, EmergencyFacts, AllBefore, AllDue, AllPublishedBefore, Transact, Stored, ReservationFacts;
    Here(c, pid);
    PreparedTicket(c.record, p.token, p.pc.intent);
    var t := Prepare(p.token, p.pc.intent);
    if Succeeded(c, t) {
      var changed := Commit(c, t);
      MoveTo(c, changed, pid, p.(pc := Reconciling(changed.record.token, changed.record.settlement)));
    } else { EndHere(c, pid); }
  }

  lemma ReconcileKeeps(c: Cell, pid: nat, p: Process)
    requires Inv(c) && pid in c.processes && p == c.processes[pid] && p.pc.Reconciling?
    ensures Inv(ReconcileStep(c, pid, p, p.pc.heldToken, p.pc.heldSettlement))
  {
    hide Inv, EmergencyFacts, AllBefore, AllDue, AllPublishedBefore, ValidRecord, ValidIntent;
    Here(c, pid);
    var r := c.record;
    if r.token != p.pc.heldToken || r.settlement != p.pc.heldSettlement || !r.state.Settling?
       || r.settlement.None? || r.token == "" {
      EndHere(c, pid);
    } else {
      var intent := r.settlement.value;
      MoveOn(c, pid,
        p.(token := r.token,
           pc := if intent.event.Some? then Recording(intent)
                 else if intent.actual != [] then Crediting(intent) else Releasing(intent)));
    }
  }

  lemma RecordKeeps(c: Cell, pid: nat, p: Process)
    requires Inv(c) && pid in c.processes && p == c.processes[pid] && p.pc.Recording?
    ensures Inv(RecordStep(c, pid, p, p.pc.intent))
  {
    hide Inv, EmergencyFacts, AllBefore, AllDue, AllPublishedBefore, ValidRecord, ValidIntent;
    Here(c, pid);
    var intent := p.pc.intent;
    var next := p.(pc := if intent.actual != [] then Crediting(intent) else Releasing(intent));
    if c.receipt.None? {
      MoveTo(c,
        c.(receipt := intent.event,
           history := c.history.(receiptsWritten := c.history.receiptsWritten + 1)), pid, next);
    } else if c.receipt == intent.event { MoveOn(c, pid, next); } else { EndHere(c, pid); }
  }

  lemma CreditKeeps(c: Cell, pid: nat, p: Process, input: Input)
    requires Inv(c) && pid in c.processes && p == c.processes[pid] && p.pc.Crediting?
    ensures Inv(CreditStep(c, pid, p, p.pc.intent, input))
  {
    hide Inv, EmergencyFacts, AllBefore, AllDue, AllPublishedBefore, ValidRecord, ValidIntent;
    Here(c, pid);
    var (answer, reservation) := FinishReservation(c.reservation, p.pc.intent.actual, input.now, input.verified);
    if reservation == c.reservation {
      if answer.Success? && Settled(answer.value) { MoveOn(c, pid, p.(pc := Releasing(p.pc.intent))); }
      else { EndHere(c, pid); }
    } else {
      var changed := c.(
        reservation := reservation,
        history := c.history.(
          settlementsWritten := c.history.settlementsWritten + 1, settledWith := reservation.value.actual));
      MoveTo(c, changed, pid, p.(pc := Releasing(p.pc.intent)));
    }
  }

  lemma ReleaseKeeps(c: Cell, pid: nat, p: Process)
    requires Inv(c) && pid in c.processes && p == c.processes[pid] && p.pc.Releasing?
    ensures Inv(End(Commit(c, Finish(p.pc.intent.outcome, p.token)), pid))
  {
    hide Inv, EmergencyFacts, AllBefore, AllDue, AllPublishedBefore, ValidRecord, ValidIntent;
    Here(c, pid);
    EndWith(c, Commit(c, Finish(p.pc.intent.outcome, p.token)), pid);
  }

  lemma ExpireUnclaimedKeeps(c: Cell, pid: nat, p: Process)
    requires Inv(c) && pid in c.processes && p == c.processes[pid] && p.pc.ExpiringUnclaimed?
    ensures Inv(End(Commit(c, Finish(Expired, "")), pid))
  {
    hide Inv, EmergencyFacts, AllBefore, AllDue, AllPublishedBefore, ValidRecord, ValidIntent;
    Here(c, pid);
    EndWith(c, Commit(c, Finish(Expired, "")), pid);
  }

  lemma SweepKeeps(c: Cell, pid: nat, p: Process, now: real)
    requires Inv(c) && pid in c.processes && p == c.processes[pid] && p.pc.Sweeping?
    ensures Inv(SweepStep(c, pid, p, p.pc.ticket, now))
  {
    hide Inv, EmergencyFacts, AllBefore, AllDue, AllPublishedBefore, ValidRecord, ValidIntent;
    Here(c, pid);
    var after := SweepStep(c, pid, p, p.pc.ticket, now);
    if after == End(c, pid) { EndHere(c, pid); } else { MoveOn(c, pid, after.processes[pid]); }
  }

  lemma ExpireQueuedKeeps(c: Cell, pid: nat, p: Process)
    requires Inv(c) && pid in c.processes && p == c.processes[pid] && p.pc.ExpiringQueued?
    ensures Inv(Resume(Commit(c, Claim(p.pc.stage, p.pc.now, "expiry", None)), pid, p, ReadingExpired))
  {
    hide Inv, EmergencyFacts, AllBefore, AllDue, AllPublishedBefore, ValidRecord, ValidIntent;
    Here(c, pid);
    MoveTo(c, Commit(c, Claim(p.pc.stage, p.pc.now, "expiry", None)), pid, p.(pc := ReadingExpired));
  }

  lemma ReadExpiredKeeps(c: Cell, pid: nat, p: Process)
    requires Inv(c) && pid in c.processes && p == c.processes[pid] && p.pc.ReadingExpired?
    ensures Inv(ReadExpiredStep(c, pid, p))
  {
    hide Inv, EmergencyFacts, AllBefore, AllDue, AllPublishedBefore, ValidRecord, ValidIntent;
    Here(c, pid);
    if c.record.state.Settling? { MoveOn(c, pid, p.(pc := Reconciling(c.record.token, c.record.settlement))); }
    else { EndHere(c, pid); }
  }

  lemma RepublishKeeps(c: Cell, pid: nat, p: Process)
    requires Inv(c) && pid in c.processes && p == c.processes[pid] && p.pc.Republishing?
    ensures Inv(RepublishStep(c, pid, p, p.pc.stage, p.pc.attempt, p.pc.now))
  {
    hide Inv, EmergencyFacts, AllBefore, AllDue, AllPublishedBefore, ValidRecord, ValidIntent;
    Here(c, pid);
    var t := Republish(p.pc.stage, p.pc.attempt, p.pc.now);
    var change := Transact(c.record, t);
    if change.Change? && change.success { MoveTo(c, Commit(c, t), pid, p.(pc := Publishing(p.pc.stage))); }
    else { EndHere(c, pid); }
  }

  lemma ProcessStepKeeps(c: Cell, pid: nat, p: Process, input: Input)
    requires Inv(c) && pid in c.processes && p == c.processes[pid]
    ensures Inv(ProcessStep(c, pid, p, input))
  {
    hide Inv;
    if !input.ok {
      EndHere(c, pid);
    } else {
      match p.pc {
        case Loading => LoadKeeps(c, pid, p, input);
        case SafeFinish(_) => SafeFinishKeeps(c, pid, p);
        case PlainFinish(_) => PlainFinishKeeps(c, pid, p);
        case Reserving => ReserveKeeps(c, pid, p, input);
        case Deferring(_) => DeferKeeps(c, pid, p);
        case Marking(_) => MarkKeeps(c, pid, p);
        case EpochCheck(_) => EpochKeeps(c, pid, p);
        case Extracting(_, _) => ExtractKeeps(c, pid, p, input);
        case HandingOff => HandoffKeeps(c, pid, p);
        case Gating(_) => GateKeeps(c, pid, p, input);
        case StartingDelivery(_) => StartDeliveryKeeps(c, pid, p, input);
        case Delivering(_) => DeliverKeeps(c, pid, p);
        case DeliveryOpen(_) => DeliveryReturnKeeps(c, pid, p, input);
        case Accounting(_) => AccountKeeps(c, pid, p, input);
        case Completing(_) => CompleteKeeps(c, pid, p);
        case Reconciling(_, _) => ReconcileKeeps(c, pid, p);
        case Recording(_) => RecordKeeps(c, pid, p);
        case Crediting(_) => CreditKeeps(c, pid, p, input);
        case Releasing(_) => ReleaseKeeps(c, pid, p);
        case ExpiringUnclaimed => ExpireUnclaimedKeeps(c, pid, p);
        case Sweeping(_) => SweepKeeps(c, pid, p, input.now);
        case ExpiringQueued(_, _) => ExpireQueuedKeeps(c, pid, p);
        case ReadingExpired => ReadExpiredKeeps(c, pid, p);
        case Republishing(_, _, _) => RepublishKeeps(c, pid, p);
        case Publishing(_) => PublishKeeps(c, pid, p, input.now);
        case FirstPublishing(_) => FirstPublishKeeps(c, pid, p, input.now);
      }
    }
  }

  /** Shared state changed while every process stood still. */
  lemma StandStill(c: Cell, changed: Cell)
    requires Inv(c) && changed.processes == c.processes
    requires Facts(changed) && KeepsSettled(c, changed) && KeepsOwner(c, changed)
    ensures Inv(changed)
  {
    forall q | q in c.processes ensures ProcessInv(changed, c.processes[q]) {
      OtherKeeps(c, changed, c.processes[q]);
    }
  }

  /** A new process appears that owns nothing. */
  lemma Join(c: Cell, pid: nat, next: Process)
    requires Inv(c) && pid !in c.processes && ProcessInv(c, next) && !Holding(next.pc)
    ensures Inv(c.(processes := c.processes[pid := next]))
  {
    var after := c.(processes := c.processes[pid := next]);
    forall q | q in after.processes ensures ProcessInv(after, after.processes[q]) {
      if q != pid { OtherKeeps(c, c, c.processes[q]); }
    }
  }

  /** Work that can be claimed has no holder. */
  lemma QueuedHasNoHolder(c: Cell, pid: nat)
    requires Inv(c) && Queued(c.record.state) && pid in c.processes
    ensures !Holding(c.processes[pid].pc)
  {
  }

  /** A process that has just claimed the ticket is its only holder. */
  lemma JoinAsHolder(c: Cell, changed: Cell, pid: nat, next: Process)
    requires Inv(c) && Queued(c.record.state) && pid !in c.processes
    requires changed.processes == c.processes
    requires Facts(changed) && KeepsSettled(c, changed) && ProcessInv(changed, next)
    ensures Inv(changed.(processes := c.processes[pid := next]))
  {
    var after := changed.(processes := c.processes[pid := next]);
    forall q | q in c.processes ensures !Holding(c.processes[q].pc) && ProcessInv(changed, c.processes[q]) {
      QueuedHasNoHolder(c, q);
      OtherKeeps(c, changed, c.processes[q]);
    }
    forall q | q in after.processes ensures ProcessInv(after, after.processes[q]) {
      if q != pid { OtherKeeps(changed, changed, c.processes[q]); }
    }
  }

  lemma ReceiveKeeps(c: Cell, pid: nat, envelope: JobEnvelope, stage: JobStage, now: real, token: string)
    requires Inv(c)
    ensures Inv(ReceiveStep(c, pid, envelope, stage, now, token))
  {
    hide Inv, EmergencyFacts, AllBefore, AllDue, AllPublishedBefore, ValidRecord, ValidIntent;
    InvGivesFacts(c);
    if pid !in c.processes {
      if now >= envelope.deadline {
        Join(c, pid, Process("", envelope, stage, ExpiringUnclaimed));
      } else {
        var claim := Claim(stage, now, token, Some(envelope));
        var change := Transact(c.record, claim);
        var after := Commit(c, claim);
        if change.Change? && change.success && change.record.Some? && change.record.value.state.Running? {
          var claimed := ClaimMade(now, stage, c.record.schedule.notBefore, c.record.stage);
          AllDueSnoc(c.history.claims, c.record.envelope.deadline, claimed);
          JoinAsHolder(c, after.(history := after.history.(claims := after.history.claims + [claimed])), pid,
            Process(token, envelope, stage, Loading));
        } else {
          StandStill(c, after);
        }
      }
    }
  }

  lemma InvGivesFacts(c: Cell)
    requires Inv(c)
    ensures Facts(c)
  {
  }

  /** A transition from outside never takes the ticket from its owner nor touches a settlement. */
  lemma OutsideLeavesOwner(r: AdmissionRecord, t: Transition)
    requires Shape(r) && FromOutside(t)
    ensures var after := Applied(r, t);
      && Shape(after) && after.envelope == r.envelope
      && (Owned(r.state) ==>
            && after.token == r.token && after.settlement == r.settlement && after.stage == r.stage
            && (after.state == r.state || (r.state.Running? && after.state.Cancelling?)))
      && (r.state.Terminal? ==>
            after.state == r.state && after.token == r.token && after.settlement == r.settlement
            && after.outcome == r.outcome)
      && (Queued(r.state) && after.settlement.Some? ==>
            after.state.Settling? && after.settlement == Some(ZeroIntent(Cancelled)))
  {
  }

  lemma OutsideKeeps(c: Cell, t: Transition)
    requires Inv(c) && FromOutside(t)
    ensures Inv(Commit(c, t))
  {
    hide Inv, EmergencyFacts, AllBefore, AllDue, AllPublishedBefore, ValidRecord, ValidIntent, Transact, Stored;
    InvGivesFacts(c);
    OutsideLeavesOwner(c.record, t);
    ReleaseMeansTerminal(c.record, t);
    StandStill(c, Commit(c, t));
  }

  lemma EnqueueKeeps(c: Cell, pid: nat, notBefore: real, now: real)
    requires Inv(c)
    ensures Inv(EnqueueStep(c, pid, notBefore, now))
  {
    hide Inv, Commit;
    var t := Register(c.record.envelope, notBefore);
    var after := Commit(c, t);
    OutsideKeeps(c, t);
    CommitKeepsEnvelope(c, t);
    if EnqueueStep(c, pid, notBefore, now).processes != c.processes {
      Join(after, pid, EnqueueStep(c, pid, notBefore, now).processes[pid]);
    }
  }

  lemma CommitKeepsEnvelope(c: Cell, t: Transition)
    requires Inv(c)
    ensures Commit(c, t).record.envelope == c.record.envelope && Commit(c, t).processes == c.processes
  {
    hide Facts, OneHolder, ProcessInv, Transact, Stored, Evolves;
    InvGivesFacts(c);
    ShapeOf(c);
    TransitionEvolves(c.record, t);
    EnvelopeEvolves(c.record, Applied(c.record, t));
  }

  lemma ShapeOf(c: Cell)
    requires Facts(c)
    ensures Shape(c.record)
  {
  }

  lemma EnvelopeEvolves(before: AdmissionRecord, after: AdmissionRecord)
    requires Evolves(before, after)
    ensures after.envelope == before.envelope
  {
  }

  lemma EmergencyLogGrows(log: seq<EmergencyState>, stamped: nat, epoch: nat, extractions: seq<nat>, disabled: bool)
    requires EmergencyFacts(log, stamped, epoch, extractions)
    ensures EmergencyFacts(log + [EmergencyState(disabled, |log|)], stamped, epoch, extractions)
  {
  }

  lemma BackendChoreKeeps(c: Cell, a: Action)
    requires Inv(c) && (a.ExpireStaleReservation? || a.EvictReservation? || a.SetEmergency?)
    ensures Inv(Act(c, a))
  {
    hide Inv, EmergencyFacts, AllBefore, AllDue, AllPublishedBefore, ValidRecord, ValidIntent;
    InvGivesFacts(c);
    if a.SetEmergency? {
      EmergencyLogGrows(
        c.emergency, c.stamped, c.record.envelope.featureEpoch, c.history.extractions, a.disabled);
    }
    StandStill(c, Act(c, a));
  }

  lemma ActKeeps(c: Cell, a: Action)
    requires Inv(c)
    ensures Inv(Act(c, a))
  {
    hide Inv, ProcessStep, ReceiveStep, EnqueueStep, Commit;
    match a {
      case Receive(pid, envelope, stage, now, token) => ReceiveKeeps(c, pid, envelope, stage, now, token);
      case Step(pid, input) => if pid in c.processes { ProcessStepKeeps(c, pid, c.processes[pid], input); }
      case Crash(pid) => EndHere(c, pid);
      case Sweep(pid) =>
        if pid !in c.processes { Join(c, pid, Process("", c.record.envelope, c.record.stage, Sweeping(c.record))); }
      case Enqueue(pid, notBefore, now) => EnqueueKeeps(c, pid, notBefore, now);
      case Outside(t) => if FromOutside(t) { OutsideKeeps(c, t); }
      case ExpireStaleReservation(_) => BackendChoreKeeps(c, a);
      case EvictReservation => BackendChoreKeeps(c, a);
      case SetEmergency(_) => BackendChoreKeeps(c, a);
    }
  }

  lemma InitialHolds(c: Cell)
    requires Initial(c)
    ensures Inv(c)
  {
  }

  /** The invariant holds after every run, whatever crashes, repeats or interleaves. */
  lemma {:induction false} RunKeeps(c: Cell, actions: seq<Action>)
    requires Inv(c)
    ensures Inv(Run(c, actions))
    decreases |actions|
  {
    if actions != [] {
      ActKeeps(c, actions[0]);
      RunKeeps(Act(c, actions[0]), actions[1..]);
    }
  }
}
