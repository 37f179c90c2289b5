/** The admission record and its pure lifecycle transitions. */
module AdmissionState {
  import opened Wrappers
  import opened Usage
  import opened Jobs

  const RECOVERY_RETRY_SECONDS: real := 5.0
  const RECOVERY_TOKEN := "recovery"

  datatype NoticeKind = DelayedNotice | TerminalNotice | FailureNotice

  /** Whether a registration was the first one or a replay of it. */
  datatype EnqueueState = FirstEnqueue | EnqueueExists

  /** Publication progress of the current stage. */
  datatype Schedule = Schedule(published: bool, registered: bool, retryAt: real, notBefore: real)

  /** Feedback requested by transitions and claimed by senders. */
  datatype Notices = Notices(
    delayedRequested: bool,
    terminalRequested: bool,
    delayedClaimed: bool,
    terminalClaimed: bool,
    failureClaimed: bool)

  datatype AdmissionRecord = AdmissionRecord(
    envelope: JobEnvelope,
    state: TicketState,
    stage: JobStage,
    byteSize: int,
    attempt: int,
    token: string,
    schedule: Schedule,
    outcome: Option<JobOutcome>,
    settlement: Option<SettlementIntent>,
    budgetReserved: bool,
    notices: Notices)

  predicate Queued(state: TicketState) {
    state.Accepted? || state.Enqueued? || state.Waiting?
  }

  predicate Owned(state: TicketState) {
    state.Running? || state.Cancelling? || state.Settling? || state.DeliveryUncertain?
  }

  /** Settlement facts agree with reservation ownership and with the job they settle. */
  predicate SettlementFits(intent: SettlementIntent, envelope: JobEnvelope, budgetReserved: bool) {
    && ValidIntent(intent)
    && (budgetReserved <==> intent.actual != [])
    && ReceiptBound(intent, envelope)
  }

  /** What reading a stored record demands; a record that fails it is unavailable for good. */
  predicate ValidRecord(r: AdmissionRecord) {
    && ValidEnvelope(r.envelope)
    && r.byteSize > 0 && r.attempt >= 0 && r.schedule.retryAt >= 0.0
    && 0.0 <= r.schedule.notBefore < r.envelope.deadline
    && (Owned(r.state) ==> TechnicalId(r.token) && r.attempt > 0)
    && (Queued(r.state) ==> r.token == "")
    && (r.state.Terminal? <==> r.outcome.Some?)
    && (r.state.Settling? ==> r.settlement.Some?)
    && (r.settlement.Some? ==>
      && (r.state.Settling? || r.state.Terminal?)
      && SettlementFits(r.settlement.value, r.envelope, r.budgetReserved))
  }

  /** A transition request, one constructor per admission operation. */
  datatype Transition =
    | MarkEnqueued(stage: JobStage, attempt: int)
    | Claim(stage: JobStage, now: real, token: string, expected: Option<JobEnvelope>)
    | Handoff(token: string, stage: JobStage)
    | Cancel
    | Finish(outcome: JobOutcome, token: string)
    | Register(envelope: JobEnvelope, notBefore: real)
    | AckPublication(stage: JobStage, attempt: int)
    | ClaimNotice(notice: NoticeKind)
    | Republish(stage: JobStage, attempt: int, now: real)
    | MarkReserved(token: string)
    | Defer(token: string, notBefore: real)
    | BeginDelivery(token: string, now: real)
    | Prepare(token: string, intent: SettlementIntent)

  datatype TransitionError = InvalidRequest | HandoffConflict | EnvelopeConflict | OutcomeConflict | SettlementConflict

  /** The planned effect: the record to report, and whether it is written and capacity released. */
  datatype AdmissionChange =
    | Change(
        record: Option<AdmissionRecord>,
        write: bool,
        release: bool,
        handoff: Option<bool>,
        success: bool,
        publication: EnqueueState,
        shouldPublish: bool)
    | Raised(error: TransitionError)

  function Reject(): AdmissionChange {
    Change(None, false, false, None, false, EnqueueExists, false)
  }

  function Keep(r: AdmissionRecord): AdmissionChange {
    Change(Some(r), false, false, None, false, EnqueueExists, false)
  }

  function Write(r: AdmissionRecord, handoff: Option<bool>): AdmissionChange {
    Change(Some(r), true, false, handoff, true, EnqueueExists, false)
  }

  function Release(r: AdmissionRecord): AdmissionChange {
    Change(Some(r), true, true, Some(false), true, EnqueueExists, false)
  }

  predicate CompletionOwnerMatches(r: AdmissionRecord, token: string) {
    if Owned(r.state) then token == r.token else token == ""
  }

  function ReplayFinish(r: AdmissionRecord, outcome: JobOutcome, token: string): AdmissionChange {
    if token != "" && token != r.token then Reject()
    else if r.outcome != Some(outcome) then Raised(OutcomeConflict)
    else Change(Some(r), false, false, None, true, EnqueueExists, false)
  }

  function FinishChange(r: AdmissionRecord, outcome: JobOutcome, token: string): AdmissionChange {
    if r.state.Terminal? then ReplayFinish(r, outcome, token)
    else if r.state.DeliveryUncertain? then Reject()
    else if r.budgetReserved && !r.state.Settling? then Reject()
    else if r.settlement.Some? && r.settlement.value.outcome != outcome then Raised(OutcomeConflict)
    else if !CompletionOwnerMatches(r, token) then Reject()
    else Release(r.(state := Terminal, outcome := Some(outcome), notices := r.notices.(terminalRequested := true)))
  }

  /** End queued work: reserved work settles at zero first, other work is released at once. */
  function QueuedTerminal(r: AdmissionRecord, outcome: JobOutcome): AdmissionChange {
    if r.budgetReserved then
      Write(r.(state := Settling, token := RECOVERY_TOKEN, settlement := Some(ZeroIntent(outcome))), Some(false))
    else
      Release(r.(state := Terminal, outcome := Some(outcome), notices := r.notices.(terminalRequested := true)))
  }

  function ClaimChange(
    r: AdmissionRecord, stage: JobStage, now: real, token: string, expected: Option<JobEnvelope>): AdmissionChange
  {
    if !Queued(r.state) then Reject()
    else if expected.Some? && expected.value != r.envelope then Reject()
    else if now >= r.envelope.deadline then QueuedTerminal(r, Expired)
    else if now < r.schedule.notBefore || r.stage != stage then Reject()
    else Write(r.(state := Running, token := token, attempt := r.attempt + 1), Some(false))
  }

  function HandoffChange(r: AdmissionRecord, token: string, stage: JobStage): AdmissionChange {
    if !r.state.Running? then Reject()
    else if r.token != token then Raised(HandoffConflict)
    else if !r.stage.Media? || !stage.Browser? then Raised(HandoffConflict)
    else
      Write(
        r.(state := Accepted, stage := stage, token := "", schedule := Schedule(false, false, 0.0, 0.0)),
        Some(true))
  }

  function RegisterChange(r: AdmissionRecord, envelope: JobEnvelope, notBefore: real): AdmissionChange {
    if r.envelope != envelope then Raised(EnvelopeConflict)
    else if r.schedule.published || !r.state.Accepted? then Keep(r)
    else if r.schedule.registered then Change(Some(r), false, false, None, false, EnqueueExists, true)
    else
      Change(Some(r.(schedule := r.schedule.(notBefore := notBefore, registered := true))),
             true, false, None, false, FirstEnqueue, true)
  }

  function CancelChange(r: AdmissionRecord): AdmissionChange {
    if r.state.Running? then Write(r.(state := Cancelling), None)
    else if Queued(r.state) then QueuedTerminal(r, Cancelled)
    else Keep(r)
  }

  function NoticeChange(r: AdmissionRecord, notice: NoticeKind): AdmissionChange {
    match notice
    case FailureNotice =>
      if r.notices.failureClaimed || r.notices.terminalClaimed then Keep(r)
      else if r.state.DeliveryUncertain? || r.state.Settling? || r.state.Cancelling? then Keep(r)
      else if r.outcome == Some(Complete) || r.outcome == Some(Cancelled) then Keep(r)
      else Write(r.(notices := r.notices.(failureClaimed := true)), None)
    case DelayedNotice =>
      if !r.state.Waiting? || !r.notices.delayedRequested || r.notices.delayedClaimed then Keep(r)
      else Write(r.(notices := r.notices.(delayedClaimed := true)), None)
    case TerminalNotice =>
      if !r.state.Terminal? || !r.notices.terminalRequested || r.notices.terminalClaimed then Keep(r)
      else Write(r.(notices := r.notices.(terminalClaimed := true)), None)
  }

  function RepublishChange(r: AdmissionRecord, stage: JobStage, attempt: int, now: real): AdmissionChange {
    if !Queued(r.state) then Keep(r)
    else if r.stage != stage || r.attempt != attempt then Keep(r)
    else if now < r.schedule.notBefore || now < r.schedule.retryAt || now >= r.envelope.deadline then Keep(r)
    else Write(r.(schedule := r.schedule.(retryAt := now + RECOVERY_RETRY_SECONDS)), None)
  }

  function DeferChange(r: AdmissionRecord, token: string, notBefore: real): AdmissionChange {
    if !r.state.Running? || r.token != token then Reject()
    else if r.budgetReserved then Reject()
    else if !(r.envelope.acceptedAt <= notBefore < r.envelope.deadline) then Raised(InvalidRequest)
    else
      Write(
        r.(state := Waiting, token := "", schedule := Schedule(false, false, 0.0, notBefore),
           notices := r.notices.(delayedRequested := true)),
        None)
  }

  function DeliveryChange(r: AdmissionRecord, token: string, now: real): AdmissionChange {
    if !r.state.Running? || r.token != token then Reject()
    else if now >= r.envelope.deadline then Reject()
    else Write(r.(state := DeliveryUncertain), None)
  }

  /** Preparing a settlement is the one transition that reads its own result back before writing it. */
  function PrepareChange(r: AdmissionRecord, token: string, intent: SettlementIntent): AdmissionChange {
    if r.token != token || token == "" then Reject()
    else if !Owned(r.state) then Reject()
    else if r.settlement.Some? && r.settlement.value != intent then Raised(SettlementConflict)
    else
      var prepared := r.(state := Settling, settlement := Some(intent));
      if ValidRecord(prepared) then Write(prepared, None) else Raised(InvalidRequest)
  }

  /** Argument checks made before any stored state is touched. */
  predicate ValidRequest(t: Transition) {
    match t
    case Claim(_, now, token, _) => now >= 0.0 && TechnicalId(token)
    case BeginDelivery(token, now) => now >= 0.0 && TechnicalId(token)
    case Republish(_, _, now) => now >= 0.0
    case Register(envelope, notBefore) => 0.0 <= notBefore < envelope.deadline
    case _ => true
  }

  function CalculateChange(r: AdmissionRecord, t: Transition): AdmissionChange {
    match t
    case Claim(stage, now, token, expected) => ClaimChange(r, stage, now, token, expected)
    case Handoff(token, stage) => HandoffChange(r, token, stage)
    case Finish(outcome, token) => FinishChange(r, outcome, token)
    case Register(envelope, notBefore) => RegisterChange(r, envelope, notBefore)
    case Cancel => CancelChange(r)
    case MarkReserved(token) =>
      if !(r.state.Running? || r.state.Cancelling?) || r.token != token then Reject()
      else Write(r.(budgetReserved := true), None)
    case Defer(token, notBefore) => DeferChange(r, token, notBefore)
    case BeginDelivery(token, now) => DeliveryChange(r, token, now)
    case Prepare(token, intent) => PrepareChange(r, token, intent)
    case ClaimNotice(notice) => NoticeChange(r, notice)
    case Republish(stage, attempt, now) => RepublishChange(r, stage, attempt, now)
    case MarkEnqueued(stage, attempt) =>
      if r.state.Accepted? && r.stage == stage && r.attempt == attempt
      then Change(Some(r.(state := Enqueued)), true, false, Some(false), false, EnqueueExists, false)
      else Keep(r)
    case AckPublication(stage, attempt) =>
      if !r.state.Terminal? && r.stage == stage && r.attempt == attempt
      then Write(r.(schedule := r.schedule.(published := true)), None)
      else Keep(r)
  }

  /** One admission transaction: request checks, then the planned change. */
  function Transact(r: AdmissionRecord, t: Transition): AdmissionChange {
    if ValidRequest(t) then CalculateChange(r, t) else Raised(InvalidRequest)
  }

  /** The stored record after a change is committed. */
  function Stored(r: AdmissionRecord, change: AdmissionChange): AdmissionRecord {
    if change.Change? && change.write && change.record.Some? then change.record.value else r
  }

  function Applied(r: AdmissionRecord, t: Transition): AdmissionRecord {
    Stored(r, Transact(r, t))
  }

  /** A readable record in which only work that ran at least once can hold a reservation. */
  predicate Sound(r: AdmissionRecord) {
    ValidRecord(r) && (r.budgetReserved ==> r.attempt > 0)
  }

  function InitialRecord(envelope: JobEnvelope, byteSize: int): AdmissionRecord {
    AdmissionRecord(
      envelope, Accepted, Media, byteSize, 0, "", Schedule(false, false, 0.0, 0.0), None, None, false,
      Notices(false, false, false, false, false))
  }

  /** Runs of transactions against one ticket, in commit order. */
  function RunTransitions(r: AdmissionRecord, ts: seq<Transition>): AdmissionRecord
    decreases |ts|
  {
    if ts == [] then r else RunTransitions(Applied(r, ts[0]), ts[1..])
  }

  /** How many of the transactions released admission capacity. */
  function Releases(r: AdmissionRecord, ts: seq<Transition>): nat
    decreases |ts|
  {
    if ts == [] then 0
    else
      var change := Transact(r, ts[0]);
      (if change.Change? && change.release then 1 else 0) + Releases(Stored(r, change), ts[1..])
  }

  lemma ZeroIntentIsValid(outcome: JobOutcome)
    ensures ValidIntent(ZeroIntent(outcome))
    ensures ZeroIntent(outcome).event.None? && ZeroIntent(outcome).actual != []
  {
    assert ZeroIntent(outcome).actual == [UnitAmount(Requests, 0)];
  }

  lemma RecoveryTokenIsTechnical()
    ensures TechnicalId(RECOVERY_TOKEN)
  {
  }

  /** Ending queued work leaves a readable record: a zero settlement needs an attempt, reservations supply one. */
  lemma QueuedTerminalIsReadable(r: AdmissionRecord, outcome: JobOutcome)
    requires Sound(r) && Queued(r.state)
    ensures Sound(Stored(r, QueuedTerminal(r, outcome)))
  {
    ZeroIntentIsValid(outcome);
    RecoveryTokenIsTechnical();
  }

  lemma OwnerChangeIsReadable(r: AdmissionRecord, t: Transition)
    requires Sound(r) && (t.Handoff? || t.Defer? || t.BeginDelivery?)
    ensures Sound(Applied(r, t))
  {
  }

  lemma SettlementChangeIsReadable(r: AdmissionRecord, t: Transition)
    requires Sound(r) && (t.Prepare? || t.MarkReserved? || t.Finish?)
    ensures Sound(Applied(r, t))
  {
  }

  lemma PublicationChangeIsReadable(r: AdmissionRecord, t: Transition)
    requires Sound(r) && (t.MarkEnqueued? || t.Register? || t.AckPublication?)
    ensures Sound(Applied(r, t))
  {
  }

  lemma NoticeChangeIsReadable(r: AdmissionRecord, notice: NoticeKind)
    requires Sound(r)
    ensures Sound(Applied(r, ClaimNotice(notice)))
  {
  }

  lemma RepublishChangeIsReadable(r: AdmissionRecord, t: Transition)
    requires Sound(r) && t.Republish?
    ensures Sound(Applied(r, t))
  {
  }

  /** No transaction ever writes a record that a later read would refuse. */
  lemma TransitionKeepsRecordReadable(r: AdmissionRecord, t: Transition)
    requires Sound(r)
    ensures Sound(Applied(r, t))
  {
    match t {
      case Claim(_, now, _, _) =>
        if Queued(r.state) && now >= r.envelope.deadline { QueuedTerminalIsReadable(r, Expired); }
      case Cancel =>
        if Queued(r.state) { QueuedTerminalIsReadable(r, Cancelled); }
      case MarkEnqueued(_, _) => PublicationChangeIsReadable(r, t);
      case Register(_, _) => PublicationChangeIsReadable(r, t);
      case AckPublication(_, _) => PublicationChangeIsReadable(r, t);
      case ClaimNotice(notice) => NoticeChangeIsReadable(r, notice);
      case Republish(_, _, _) => RepublishChangeIsReadable(r, t);
      case Prepare(_, _) => SettlementChangeIsReadable(r, t);
      case MarkReserved(_) => SettlementChangeIsReadable(r, t);
      case Finish(_, _) => SettlementChangeIsReadable(r, t);
      case Handoff(_, _) => OwnerChangeIsReadable(r, t);
      case Defer(_, _) => OwnerChangeIsReadable(r, t);
      case BeginDelivery(_, _) => OwnerChangeIsReadable(r, t);
    }
  }

  /** The states no claim, handoff or deferral leads back from, in the order they are passed. */
  function Progress(state: TicketState): nat {
    match state
    case DeliveryUncertain => 1
    case Settling => 2
    case Terminal => 3
    case _ => 0
  }

  /** What can never be undone on a ticket, whoever writes to it. */
  predicate Evolves(before: AdmissionRecord, after: AdmissionRecord) {
    && after.envelope == before.envelope
    && after.byteSize == before.byteSize
    && after.attempt >= before.attempt
    && (before.stage.Browser? ==> after.stage.Browser?)
    && (before.budgetReserved ==> after.budgetReserved)
    && (before.settlement.Some? ==> after.settlement == before.settlement && after.token == before.token)
    && (before.outcome.Some? ==> after.outcome == before.outcome)
    && Progress(after.state) >= Progress(before.state)
  }

  /** The owner token a transition presents; empty when it presents none. */
  function Actor(t: Transition): string {
    match t
    case Handoff(token, _) => token
    case Finish(_, token) => token
    case MarkReserved(token) => token
    case Defer(token, _) => token
    case BeginDelivery(token, _) => token
    case Prepare(token, _) => token
    case _ => ""
  }

  /** The part of a readable record that ownership arguments need. */
  predicate Shape(r: AdmissionRecord) {
    && (Owned(r.state) ==> r.token != "")
    && (Queued(r.state) ==> r.token == "")
    && (r.state.Terminal? <==> r.outcome.Some?)
    && (r.state.Settling? ==> r.settlement.Some?)
    && (r.settlement.Some? ==> r.state.Settling? || r.state.Terminal?)
  }

  lemma SoundHasShape(r: AdmissionRecord)
    requires Sound(r)
    ensures Shape(r)
  {
  }

  /** The deadline, stage order, reservation, settlement, outcome and delivery fence only move forward. */
  lemma TransitionEvolves(r: AdmissionRecord, t: Transition)
    requires Shape(r)
    ensures Evolves(r, Applied(r, t))
  {
    hide Shape, Evolves, Applied;
    if t.Claim? || t.Cancel? || t.Finish? || t.Prepare? { EndingEvolves(r, t); } else { RunningEvolves(r, t); }
  }

  lemma EndingEvolves(r: AdmissionRecord, t: Transition)
    requires Shape(r) && (t.Claim? || t.Cancel? || t.Finish? || t.Prepare?)
    ensures Evolves(r, Applied(r, t))
  {
    hide ValidRecord;
  }

  lemma RunningEvolves(r: AdmissionRecord, t: Transition)
    requires Shape(r) && !t.Claim? && !t.Cancel? && !t.Finish? && !t.Prepare?
    ensures Evolves(r, Applied(r, t))
  {
    hide ValidRecord;
  }

  /**
   * Without the owner's token nothing changes under an owner except a request to cancel, a feedback flag,
   * or the note that a message was published.
   */
  lemma OwnerIsFenced(r: AdmissionRecord, t: Transition)
    requires Shape(r) && Owned(r.state) && Actor(t) != r.token
    ensures var after := Applied(r, t);
      && after == r.(state := after.state, notices := after.notices,
                     schedule := r.schedule.(published := after.schedule.published))
      && (after.state == r.state || (t.Cancel? && r.state.Running? && after.state.Cancelling?))
  {
  }

  /** Over any run a ticket keeps its envelope and never leaves a state behind the delivery fence. */
  lemma {:induction false} RunEvolves(r: AdmissionRecord, ts: seq<Transition>)
    requires Sound(r)
    ensures Sound(RunTransitions(r, ts)) && Evolves(r, RunTransitions(r, ts))
    decreases |ts|
  {
    if ts != [] {
      TransitionKeepsRecordReadable(r, ts[0]);
      SoundHasShape(r);
      TransitionEvolves(r, ts[0]);
      RunEvolves(Applied(r, ts[0]), ts[1..]);
    }
  }

  /** Capacity is released exactly when the ticket first becomes terminal, once in any run. */
  lemma {:induction false} CapacityIsReleasedOnce(r: AdmissionRecord, ts: seq<Transition>)
    requires Shape(r)
    ensures Releases(r, ts) == if !r.state.Terminal? && RunTransitions(r, ts).state.Terminal? then 1 else 0
    decreases |ts|
  {
    if ts != [] {
      ReleaseMeansTerminal(r, ts[0]);
      CapacityIsReleasedOnce(Applied(r, ts[0]), ts[1..]);
      if Applied(r, ts[0]).state.Terminal? { TerminalIsAbsorbing(Applied(r, ts[0]), ts[1..]); }
    }
  }

  lemma ReleaseMeansTerminal(r: AdmissionRecord, t: Transition)
    requires Shape(r)
    ensures Shape(Applied(r, t))
    ensures var change := Transact(r, t);
      change.Change? && change.release <==> !r.state.Terminal? && Applied(r, t).state.Terminal?
  {
  }

  lemma {:induction false} TerminalIsAbsorbing(r: AdmissionRecord, ts: seq<Transition>)
    requires Shape(r) && r.state.Terminal?
    ensures RunTransitions(r, ts).state.Terminal? && RunTransitions(r, ts).outcome == r.outcome
    decreases |ts|
  {
    if ts != [] {
      ReleaseMeansTerminal(r, ts[0]);
      TransitionEvolves(r, ts[0]);
      TerminalIsAbsorbing(Applied(r, ts[0]), ts[1..]);
    }
  }
}
