/** Job envelopes, ticket states and the settlement intent, with the checks made when each is built. */
module Jobs {
  import opened Wrappers
  import opened Usage

  const MAX_JOB_LIFETIME_SECONDS: real := 300.0

  datatype JobStage = Media | Browser

  datatype JobOutcome = Complete | Expired | PayloadUnavailable | Failed | Cancelled

  datatype TicketState =
    | Accepted | Enqueued | Running | Cancelling | Waiting | Settling | DeliveryUncertain | Terminal

  datatype Trigger = Direct | Automatic

  datatype JobTarget = JobTarget(kind: TargetKind, entityId: int, generation: int, telegramId: int)

  datatype JobEnvelope = JobEnvelope(
    jobId: string,
    payloadRef: string,
    feature: string,
    target: JobTarget,
    actorId: Option<int>,
    actorGeneration: Option<int>,
    trigger: Trigger,
    chargedKind: TargetKind,
    chargedTelegramId: int,
    acceptedAt: real,
    deadline: real,
    dedupeKey: string,
    featureEpoch: nat,
    messageId: int)

  predicate ValidTarget(target: JobTarget) {
    && target.entityId > 0 && target.generation > 0
    && target.telegramId != 0 && -0x8000_0000_0000_0000 < target.telegramId < 0x8000_0000_0000_0000
    && (target.kind.User? <==> target.telegramId > 0)
  }

  predicate ValidDeadline(envelope: JobEnvelope) {
    && 0.0 <= envelope.acceptedAt < envelope.deadline
    && envelope.deadline - envelope.acceptedAt <= MAX_JOB_LIFETIME_SECONDS
  }

  predicate ValidBinding(envelope: JobEnvelope) {
    match envelope.trigger
    case Automatic =>
      && envelope.target.kind.Group?
      && envelope.chargedKind.Group? && envelope.chargedTelegramId == envelope.target.telegramId
      && (envelope.actorId.None? <==> envelope.actorGeneration.None?)
    case Direct =>
      && envelope.actorId.Some? && envelope.actorGeneration.Some?
      && envelope.chargedKind.User? && envelope.chargedTelegramId == envelope.actorId.value
      && (envelope.target.kind.User? ==> envelope.target.telegramId == envelope.actorId.value)
  }

  predicate HexText(text: string, length: nat) {
    |text| == length && forall i :: 0 <= i < |text| ==> '0' <= text[i] <= '9' || 'a' <= text[i] <= 'f'
  }

  predicate ValidEnvelope(envelope: JobEnvelope) {
    && TechnicalId(envelope.jobId) && TechnicalId(envelope.feature)
    && HexText(envelope.payloadRef, 32) && HexText(envelope.dedupeKey, 64)
    && ValidTarget(envelope.target)
    && (envelope.actorId.Some? ==> 0 < envelope.actorId.value < 0x8000_0000_0000_0000)
    && (envelope.actorGeneration.Some? ==> envelope.actorGeneration.value > 0)
    && envelope.messageId > 0
    && ValidDeadline(envelope)
    && ValidBinding(envelope)
  }

  /** Stopped effects: the outcome, what was consumed, and the receipt when something was. */
  datatype SettlementIntent =
    SettlementIntent(outcome: JobOutcome, actual: seq<UnitAmount>, event: Option<UsageEvent>)

  predicate ValidIntent(intent: SettlementIntent) {
    && (forall i :: 0 <= i < |intent.actual| ==> ValidAmount(intent.actual[i]))
    && DistinctUnits(intent.actual)
    && (AnyConsumed(intent.actual) <==> intent.event.Some?)
    && (intent.event.Some? ==>
      && ValidEvent(intent.event.value)
      && intent.outcome.Complete?
      && forall i :: 0 <= i < |intent.event.value.charges| ==>
        && intent.event.value.charges[i].unit in Amounts(intent.actual)
        && intent.event.value.charges[i].amount == Amounts(intent.actual)[intent.event.value.charges[i].unit])
  }

  /** The intent used for every ending that consumed nothing. */
  function ZeroIntent(outcome: JobOutcome): SettlementIntent {
    SettlementIntent(outcome, [UnitAmount(Requests, 0)], None)
  }

  /** The intent of a confirmed delivery: one request, with a receipt in the job's own name. */
  function ChargedIntent(envelope: JobEnvelope, charges: seq<UsageCharge>, now: real): SettlementIntent {
    SettlementIntent(
      Complete,
      [UnitAmount(Requests, 1)],
      Some(UsageEvent(
        envelope.jobId, AccountingSubject(envelope.chargedKind, envelope.chargedTelegramId), now.Floor, charges)))
  }

  /** A receipt must carry the job's own identity, subject and execution window. */
  predicate ReceiptBound(intent: SettlementIntent, envelope: JobEnvelope) {
    intent.event.Some? ==>
      && intent.event.value.eventId == envelope.jobId
      && intent.event.value.subject == AccountingSubject(envelope.chargedKind, envelope.chargedTelegramId)
      && envelope.acceptedAt.Floor <= intent.event.value.occurredAt <= envelope.deadline.Floor
  }

  // ----- A sample job -----

  const SAMPLE_HEX := "0123456789abcdef"

  /** A direct request of user 7. */
  const SAMPLE_ENVELOPE := JobEnvelope(
    "job-1", SAMPLE_HEX + SAMPLE_HEX, "tiktok_video", JobTarget(User, 1, 1, 7), Some(7), Some(1), Direct, User, 7,
    0.0, 300.0,
    SAMPLE_HEX + SAMPLE_HEX + SAMPLE_HEX + SAMPLE_HEX, 0, 5)

  lemma SampleEnvelopeIsValid()
    ensures ValidEnvelope(SAMPLE_ENVELOPE)
  {
    assert HexText(SAMPLE_HEX, 16);
    HexJoins(SAMPLE_HEX, SAMPLE_HEX);
    HexJoins(SAMPLE_HEX + SAMPLE_HEX, SAMPLE_HEX);
    HexJoins(SAMPLE_HEX + SAMPLE_HEX + SAMPLE_HEX, SAMPLE_HEX);
    hide HexText;
    assert TechnicalId("job-1") && TechnicalId("tiktok_video");
  }

  lemma HexJoins(a: string, b: string)
    requires HexText(a, |a|) && HexText(b, |b|)
    ensures HexText(a + b, |a + b|)
  {
  }
}
