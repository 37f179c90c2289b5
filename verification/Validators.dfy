/** What the validators accept, in the codes, numbers and texts their formats are documented with. */
module Validators {
  import opened Wrappers
  import opened Usage
  import opened Jobs
  import opened AdmissionState
  import opened UsageResolution

  // ----- Identities -----

  /** A digit, a letter of either case, a hyphen, a dot or an underscore, by its ASCII code. */
  predicate PlainCode(code: int) {
    48 <= code <= 57 || 65 <= code <= 90 || 97 <= code <= 122 || code == 45 || code == 46 || code == 95
  }

  lemma CodeOf(c: char)
    ensures TechnicalChar(c) <==> PlainCode(c as int)
    ensures c == ':' <==> c as int == 58
    ensures '0' <= c <= '9' || 'a' <= c <= 'f' <==> 48 <= c as int <= 57 || 97 <= c as int <= 102
  {
  }

  /** Job, reservation and owner identities: one to 96 plain characters. */
  lemma TechnicalIdExactly(id: string)
    ensures TechnicalId(id) <==> 0 < |id| <= 96 && forall i :: 0 <= i < |id| ==> PlainCode(id[i] as int)
  {
    forall i | 0 <= i < |id| ensures TechnicalChar(id[i]) <==> PlainCode(id[i] as int) { CodeOf(id[i]); }
  }

  /** Event identities: one to 128 plain characters or colons. */
  lemma EventIdExactly(id: string)
    ensures EventId(id) <==>
      0 < |id| <= 128 && forall i :: 0 <= i < |id| ==> PlainCode(id[i] as int) || id[i] as int == 58
  {
    forall i | 0 <= i < |id|
      ensures (TechnicalChar(id[i]) || id[i] == ':') <==> (PlainCode(id[i] as int) || id[i] as int == 58)
    {
      CodeOf(id[i]);
    }
  }

  /** Payload references and dedupe keys: small hexadecimal digits of a given number. */
  lemma HexTextExactly(text: string, length: nat)
    ensures HexText(text, length) <==>
      |text| == length && forall i :: 0 <= i < |text| ==> 48 <= text[i] as int <= 57 || 97 <= text[i] as int <= 102
  {
    forall i | 0 <= i < |text|
      ensures ('0' <= text[i] <= '9' || 'a' <= text[i] <= 'f')
        <==> (48 <= text[i] as int <= 57 || 97 <= text[i] as int <= 102)
    {
      CodeOf(text[i]);
    }
  }

  /** A bucket is a nonempty name behind one of two prefixes. */
  lemma ScopedBucketExactly(bucket: string)
    ensures ScopedBucket(bucket) <==>
      exists name: string :: name != "" && (bucket == "feature:" + name || bucket == "family:" + name)
  {
    if "feature:" <= bucket && |bucket| > 8 { assert bucket == "feature:" + bucket[8..]; }
    if "family:" <= bucket && |bucket| > 7 { assert bucket == "family:" + bucket[7..]; }
  }

  // ----- Accounting -----

  const MAX_SIGNED_64: int := 9223372036854775807
  const MAX_DOUBLE_EXACT: int := 9007199254740991

  /** Users have positive Telegram identities and groups negative ones, within a signed 64-bit column. */
  lemma SubjectExactly(subject: AccountingSubject)
    ensures ValidSubject(subject) <==>
      if subject.kind.User? then 1 <= subject.telegramId <= MAX_SIGNED_64
      else -MAX_SIGNED_64 <= subject.telegramId <= -1
  {
  }

  /** A charge is a positive 64-bit amount in a scoped bucket of at most 160 characters and a positive window. */
  lemma ChargeExactly(charge: UsageCharge)
    ensures ValidCharge(charge) <==>
      && 1 <= charge.amount <= MAX_SIGNED_64 && 1 <= charge.window.seconds <= MAX_SIGNED_64
      && ScopedBucket(charge.bucket) && |charge.bucket| <= 160
  {
  }

  /** An event charges one to 256 different dimensions, at a time since the epoch. */
  lemma EventExactly(event: UsageEvent)
    ensures ValidEvent(event) <==>
      && EventId(event.eventId) && ValidSubject(event.subject) && 0 <= event.occurredAt <= MAX_SIGNED_64
      && 1 <= |event.charges| <= 256
      && (forall charge :: charge in event.charges ==> ValidCharge(charge))
      && (forall i, j :: 0 <= i < |event.charges| && 0 <= j < |event.charges| && i != j ==>
            event.charges[i].bucket != event.charges[j].bucket || event.charges[i].unit != event.charges[j].unit
            || event.charges[i].window != event.charges[j].window)
  {
  }

  /** Settled amounts are natural numbers that a double holds exactly. */
  lemma AmountExactly(item: UnitAmount)
    ensures ValidAmount(item) <==> 0 <= item.amount < 9007199254740992
  {
  }

  /** A policy is positive everywhere and its burst no larger than its limit. */
  lemma PolicyExactly(policy: UsagePolicy)
    ensures ValidPolicy(policy) <==>
      && 1 <= policy.burst <= policy.limit && 1 <= policy.concurrency && 1 <= policy.pending
      && 1 <= policy.window.seconds && ScopedBucket(policy.bucket)
  {
  }

  /** A reservation asks for a positive amount of exactly the units of its policies, before some deadline. */
  lemma BudgetRequestExactly(id: string, policies: seq<UsagePolicy>, estimates: seq<UnitAmount>, deadline: real)
    ensures ValidBudgetRequest(id, policies, estimates, deadline) <==>
      && TechnicalId(id) && deadline > 0.0 && estimates != [] && EachOnce(estimates)
      && (forall item :: item in estimates ==> 1 <= item.amount <= MAX_DOUBLE_EXACT)
      && (forall p :: p in policies ==> CountOf(estimates, p.unit) >= 1)
      && (forall item :: item in estimates ==> exists p :: p in policies && p.unit == item.unit)
  {
    var asked := set i | 0 <= i < |estimates| :: estimates[i].unit;
    var covered := set i | 0 <= i < |policies| :: policies[i].unit;
    DistinctCounts(estimates);
    forall unit
      ensures CountOf(estimates, unit) >= 1 <==> unit in asked
      ensures unit in covered <==> exists p :: p in policies && p.unit == unit
    {
      CountTells(estimates, unit);
    }
    assert forall i :: 0 <= i < |estimates| ==> estimates[i] in estimates && estimates[i].unit in asked;
    assert forall i :: 0 <= i < |policies| ==> policies[i] in policies && policies[i].unit in covered;
  }

  /** How often a unit is asked for. */
  function CountOf(items: seq<UnitAmount>, unit: UsageUnit): nat {
    if items == [] then 0 else (if items[0].unit == unit then 1 else 0) + CountOf(items[1..], unit)
  }

  lemma {:induction false} CountTells(items: seq<UnitAmount>, unit: UsageUnit)
    ensures CountOf(items, unit) >= 1 <==> exists i :: 0 <= i < |items| && items[i].unit == unit
  {
    if items != [] {
      CountTells(items[1..], unit);
      if i :| 0 <= i < |items[1..]| && items[1..][i].unit == unit { assert items[i + 1].unit == unit; }
      if i :| 0 <= i < |items| && items[i].unit == unit { if i > 0 { assert items[1..][i - 1].unit == unit; } }
    }
  }

  predicate EachOnce(items: seq<UnitAmount>) {
    forall unit :: CountOf(items, unit) <= 1
  }

  lemma {:induction false} DistinctCounts(items: seq<UnitAmount>)
    ensures DistinctUnits(items) <==> EachOnce(items)
  {
    if items != [] {
      var rest := items[1..];
      var first := items[0].unit;
      DistinctCounts(rest);
      CountTells(rest, first);
      forall unit ensures CountOf(items, unit) == (if first == unit then 1 else 0) + CountOf(rest, unit) {}
      if DistinctUnits(items) {
        FirstApart(items);
        forall unit ensures CountOf(items, unit) <= 1 {
          assert CountOf(rest, unit) <= 1;
        }
      }
      if EachOnce(items) {
        assert CountOf(items, first) <= 1;
        forall unit ensures CountOf(rest, unit) <= 1 {
          assert CountOf(items, unit) <= 1;
        }
        assert EachOnce(rest);
        RestApart(items);
      }
    }
  }

  lemma FirstApart(items: seq<UnitAmount>)
    requires items != [] && DistinctUnits(items)
    ensures DistinctUnits(items[1..]) && CountOf(items[1..], items[0].unit) == 0
  {
    var rest := items[1..];
    CountTells(rest, items[0].unit);
    forall i | 0 <= i < |rest| ensures rest[i].unit != items[0].unit {
      assert rest[i] == items[i + 1];
    }
  }

  lemma RestApart(items: seq<UnitAmount>)
    requires items != [] && DistinctUnits(items[1..]) && CountOf(items[1..], items[0].unit) == 0
    ensures DistinctUnits(items)
  {
    var rest := items[1..];
    CountTells(rest, items[0].unit);
    forall i, j | 0 <= i < j < |items| ensures items[i].unit != items[j].unit {
      assert items[j] == rest[j - 1];
      if i > 0 { assert items[i] == rest[i - 1]; }
    }
  }

  // ----- Envelopes -----

  /** A target is a stored user or group of some generation, with a Telegram identity of its own sign. */
  lemma TargetExactly(target: JobTarget)
    ensures ValidTarget(target) <==>
      && 1 <= target.entityId && 1 <= target.generation
      && (if target.kind.User? then 1 <= target.telegramId <= MAX_SIGNED_64
          else -MAX_SIGNED_64 <= target.telegramId <= -1)
  {
  }

  /** An actor is known by a positive identity, if at all. */
  predicate KnownActor(envelope: JobEnvelope) {
    envelope.actorId.Some? ==> 1 <= envelope.actorId.value <= MAX_SIGNED_64
  }

  /**
   * Automatic work happens in a group and is charged to it; direct work is charged to its actor, who is named with
   * a generation and is the target when that is a user.
   */
  predicate ChargedWhereItBelongs(envelope: JobEnvelope) {
    if envelope.trigger.Automatic? then
      && envelope.target.kind == Group && envelope.chargedKind == Group
      && envelope.chargedTelegramId == envelope.target.telegramId
      && envelope.actorId.Some? == envelope.actorGeneration.Some?
    else
      && envelope.actorId == Some(envelope.chargedTelegramId) && envelope.actorGeneration != None
      && envelope.chargedKind == User
      && (envelope.target.kind == User ==> envelope.target.telegramId == envelope.chargedTelegramId)
  }

  /** A job carries its identities in their formats, lives at most five minutes and charges whom it belongs to. */
  lemma EnvelopeExactly(envelope: JobEnvelope)
    ensures ValidEnvelope(envelope) <==>
      && TechnicalId(envelope.jobId) && TechnicalId(envelope.feature)
      && HexText(envelope.payloadRef, 32) && HexText(envelope.dedupeKey, 64)
      && ValidTarget(envelope.target) && KnownActor(envelope)
      && (envelope.actorGeneration != None ==> 1 <= envelope.actorGeneration.value) && 1 <= envelope.messageId
      && 0.0 <= envelope.acceptedAt && 0.0 < envelope.deadline - envelope.acceptedAt <= 300.0
      && ChargedWhereItBelongs(envelope)
  {
    hide TechnicalId, HexText, ValidTarget;
  }

  /** A settlement consumes something exactly when it brings a receipt, which then completes and charges just that. */
  lemma IntentExactly(intent: SettlementIntent)
    ensures ValidIntent(intent) <==>
      && (forall item :: item in intent.actual ==> 0 <= item.amount <= MAX_DOUBLE_EXACT)
      && EachOnce(intent.actual)
      && ((exists item :: item in intent.actual && item.amount > 0) <==> intent.event != None)
      && (intent.event != None ==>
            && ValidEvent(intent.event.value) && intent.outcome == Complete
            && forall charge :: charge in intent.event.value.charges ==>
                 UnitAmount(charge.unit, charge.amount) in intent.actual)
  {
    hide ValidEvent;
    DistinctCounts(intent.actual);
    if DistinctUnits(intent.actual) { AmountsAreListed(intent.actual); }
    assert forall i :: 0 <= i < |intent.actual| ==> intent.actual[i] in intent.actual;
    if intent.event != None {
      var charges := intent.event.value.charges;
      assert forall i :: 0 <= i < |charges| ==> charges[i] in charges;
    }
  }

  lemma {:induction false} AmountsAreListed(actual: seq<UnitAmount>)
    requires DistinctUnits(actual)
    ensures forall unit, amount: int ::
      unit in Amounts(actual) && Amounts(actual)[unit] == amount <==> UnitAmount(unit, amount) in actual
  {
    if actual != [] {
      var shorter := actual[..|actual| - 1];
      var last := actual[|actual| - 1];
      AmountsAreListed(shorter);
      assert actual == shorter + [last];
      assert forall item :: item in shorter ==> item.unit != last.unit;
    }
  }

  /** A receipt carries its job's identity and subject and a second of the job's lifetime. */
  lemma ReceiptExactly(intent: SettlementIntent, envelope: JobEnvelope)
    ensures ReceiptBound(intent, envelope) <==>
      intent.event == None
      || (&& intent.event.value.eventId == envelope.jobId
          && intent.event.value.subject.kind == envelope.chargedKind
          && intent.event.value.subject.telegramId == envelope.chargedTelegramId
          && envelope.acceptedAt.Floor <= intent.event.value.occurredAt
          && intent.event.value.occurredAt <= envelope.deadline.Floor)
  {
  }

  /** A reserved job settles amounts, an unreserved one none. */
  lemma SettlementFitsExactly(intent: SettlementIntent, envelope: JobEnvelope, budgetReserved: bool)
    ensures SettlementFits(intent, envelope, budgetReserved) <==>
      ValidIntent(intent) && ReceiptBound(intent, envelope) && (|intent.actual| > 0) == budgetReserved
  {
    hide ValidIntent, ReceiptBound;
  }

  // ----- Stored records and overrides -----

  /** Override columns hold 32-bit numbers and a bucket of at most 160 characters. */
  lemma StorableExactly(policy: UsagePolicy)
    ensures Storable(policy) <==>
      && policy.limit < 2147483648 && policy.burst < 2147483648 && policy.concurrency < 2147483648
      && policy.window.seconds < 2147483648 && |policy.bucket| < 161
  {
  }

  /** The counters take one policy per bucket and window, with numbers a double holds exactly. */
  lemma ReservableExactly(policies: seq<UsagePolicy>)
    ensures ReservablePolicies(policies) <==>
      && (forall i, j :: 0 <= i < |policies| && 0 <= j < |policies| && i != j ==>
            policies[i].bucket != policies[j].bucket || policies[i].window != policies[j].window)
      && (forall p :: p in policies ==>
            && p.limit <= MAX_DOUBLE_EXACT && p.burst <= MAX_DOUBLE_EXACT
            && p.concurrency <= MAX_DOUBLE_EXACT && p.window.seconds <= MAX_DOUBLE_EXACT)
  {
    assert forall i :: 0 <= i < |policies| ==> policies[i] in policies;
  }

  /** An owner is recorded exactly while there is one, with at least one attempt; queued work has none. */
  predicate OwnerFitsState(r: AdmissionRecord) {
    match r.state
    case Accepted => r.token == ""
    case Enqueued => r.token == ""
    case Waiting => r.token == ""
    case Terminal => true
    case _ => TechnicalId(r.token) && 1 <= r.attempt
  }

  /** What a record must hold to be read again. */
  lemma RecordExactly(r: AdmissionRecord)
    ensures ValidRecord(r) <==>
      && ValidEnvelope(r.envelope) && 1 <= r.byteSize && 0 <= r.attempt && 0.0 <= r.schedule.retryAt
      && 0.0 <= r.schedule.notBefore && r.schedule.notBefore < r.envelope.deadline
      && OwnerFitsState(r)
      && (r.outcome != None) == r.state.Terminal?
      && (if r.settlement == None then !r.state.Settling?
          else (r.state.Settling? || r.state.Terminal?)
               && SettlementFits(r.settlement.value, r.envelope, r.budgetReserved))
  {
    hide ValidEnvelope, SettlementFits, TechnicalId;
  }
}
