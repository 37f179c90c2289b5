/**
 * One uninterrupted execution of a fresh job, from the broker message to the last step, against a
 * decision table: which answers of the outside world lead to which ending.
 */
module JobExecution {
  import opened Wrappers
  import opened Usage
  import opened Jobs
  import opened AdmissionState
  import opened Budgets
  import opened SettlementProtocol
  import opened JobGuarantees

  datatype Verdict =
    | Ended(outcome: JobOutcome, charged: bool)
    | WaitsUntil(retry: real)
    | HandedToBrowser
    | LeftRunning
    | LeftUncertain

  /** How an execution of either stage ends, read off the answers it gets. */
  function VerdictOf(c: Cell, input: Input): Verdict {
    if input.payload.PayloadExpired? then Ended(Expired, false)
    else if input.payload.PayloadMissing? then Ended(PayloadUnavailable, false)
    else if c.record.stage.Media? && !input.quota.Granted? then DenialOf(c, input)
    else if input.quota.BindingChanged? || input.quota.CountersUnavailable? then LeftRunning
    else if |c.emergency| != c.stamped + 1 then Ended(Cancelled, false)
    else if input.extraction.TimedOut? then Ended(Expired, false)
    else if input.extraction.ExtractionFailed? then Ended(Failed, false)
    else if input.extraction.NeedsBrowser? then
      if c.record.stage.Browser? then LeftRunning
      else if input.browserEnabled then HandedToBrowser
      else Ended(Failed, false)
    else if !input.gatesOpen then Ended(Complete, false)
    else if input.delivery.DeliveryRejected? then Ended(Failed, false)
    else if input.delivery.DeliveryUnknown? || !ValidIntent(ChargedIntent(c.record.envelope, input.charges, input.now))
    then LeftUncertain
    else Ended(Complete, true)
  }

  /** A first reservation that is not granted. */
  function DenialOf(c: Cell, input: Input): Verdict {
    if input.quota.Denied? then
      if input.quota.retry >= c.record.envelope.deadline then Ended(Expired, false)
      else if input.quota.retry < c.record.envelope.acceptedAt then LeftRunning
      else WaitsUntil(input.quota.retry)
    else if input.quota.TooLarge? then Ended(Failed, false)
    else LeftRunning
  }

  /** Queued browser work that took its reservation along. */
  predicate ReadyForBrowser(c: Cell) {
    && Sound(c.record) && c.record.state.Accepted? && c.record.stage.Browser? && c.record.schedule.notBefore == 0.0
    && c.record.budgetReserved && c.record.settlement.None? && c.record.outcome.None?
    && c.reservation == Some(Reservation(Reserved, c.record.envelope.deadline, map[Requests := 1], None))
    && c.receipt.None?
    && c.history.deliveryStarts == 0 && c.history.confirmations == 0 && c.history.releases == 0
    && EmergencyFacts(c.emergency, c.stamped, c.record.envelope.featureEpoch, c.history.extractions)
  }

  /** What the stores look like after each ending. */
  predicate Shows(after: Cell, verdict: Verdict, receipt: SettlementIntent) {
    match verdict
    case Ended(outcome, charged) =>
      && after.record.state.Terminal? && after.record.outcome == Some(outcome)
      && after.history.releases == 1
      && (if charged
          then after.receipt == receipt.event && after.history.confirmations == 1
               && after.reservation.Some? && after.reservation.value.state.Committed?
          else after.receipt.None? && after.history.confirmations == 0
               && (after.reservation.Some? ==> after.reservation.value.state.Credited?))
    case WaitsUntil(retry) =>
      after.record.state.Waiting? && after.record.schedule.notBefore == retry && after.reservation.None?
    case HandedToBrowser =>
      && ReadyForBrowser(after)
      && after.history.publications != []
      && var last := after.history.publications[|after.history.publications| - 1];
         last.stage.Browser? && last.envelope == after.record.envelope
    case LeftRunning =>
      after.record.state.Running? && (after.reservation.Some? ==> after.reservation.value.state.Reserved?)
    case LeftUncertain => after.record.state.DeliveryUncertain? && after.receipt.None?
  }

  /** The same process taking n steps with the same answers. */
  function Steps(c: Cell, pid: nat, input: Input, n: nat): Cell
    decreases n
  {
    if n == 0 then c else Steps(Act(c, Step(pid, input)), pid, input, n - 1)
  }

  lemma {:induction false} GoneStays(c: Cell, pid: nat, input: Input, n: nat)
    requires pid !in c.processes
    ensures Steps(c, pid, input, n) == c
  {
    if n > 0 { GoneStays(c, pid, input, n - 1); }
  }

  lemma {:induction false} StepsCompose(c: Cell, pid: nat, input: Input, m: nat, n: nat)
    ensures Steps(c, pid, input, m + n) == Steps(Steps(c, pid, input, m), pid, input, n)
    decreases m
  {
    hide Act;
    if m > 0 { StepsCompose(Act(c, Step(pid, input)), pid, input, m - 1, n); }
  }

  /** Every call answers, and the clock lies within the job's lifetime. */
  predicate Answering(c: Cell, input: Input) {
    && input.ok && input.verified && 0.0 <= input.now
    && c.record.envelope.acceptedAt <= input.now < c.record.envelope.deadline
  }

  /** A fresh media-stage job in the hands of one process. */
  predicate Claimed(c: Cell, pid: nat, token: string) {
    && Sound(c.record) && TechnicalId(token)
    && c.record.state.Running? && c.record.token == token && c.record.stage.Media?
    && !c.record.budgetReserved && c.record.settlement.None? && c.record.outcome.None?
    && c.reservation.None? && c.receipt.None?
    && c.history.deliveryStarts == 0 && c.history.confirmations == 0 && c.history.releases == 0
    && pid in c.processes && c.processes[pid] == Process(token, c.record.envelope, Media, Loading)
    && EmergencyFacts(c.emergency, c.stamped, c.record.envelope.featureEpoch, c.history.extractions)
  }

  // ----- Phases -----

  lemma PayloadPhase(c: Cell, pid: nat, token: string, input: Input)
    requires Claimed(c, pid, token) && Answering(c, input) && !input.payload.PayloadReady?
    ensures Shows(Steps(c, pid, input, 3), VerdictOf(c, input), ZeroIntent(Failed))
    ensures pid !in Steps(c, pid, input, 3).processes
  {
    hide ValidRecord, EmergencyFacts, ValidIntent;
    var c1 := Act(c, Step(pid, input));
    var c2 := Act(c1, Step(pid, input));
    Unfold3(c, pid, input);
  }

  lemma Unfold3(c: Cell, pid: nat, input: Input)
    ensures var step := Step(pid, input); Steps(c, pid, input, 3) == Act(Act(Act(c, step), step), step)
  {
    hide Act;
    var c1 := Act(c, Step(pid, input));
    var c2 := Act(c1, Step(pid, input));
    assert Steps(Act(c2, Step(pid, input)), pid, input, 0) == Act(c2, Step(pid, input));
    assert Steps(c2, pid, input, 1) == Act(c2, Step(pid, input));
    assert Steps(c1, pid, input, 2) == Steps(c2, pid, input, 1);
  }

  /** Work that holds no reservation is finished directly. */
  lemma UnreservedEnds(c: Cell, pid: nat, input: Input, outcome: JobOutcome)
    requires pid in c.processes && c.processes[pid].pc == SafeFinish(outcome) && input.ok
    requires c.record.state.Running? && c.processes[pid].token == c.record.token
    requires !c.record.budgetReserved && c.record.settlement.None?
    ensures var after := Act(Act(c, Step(pid, input)), Step(pid, input));
      && pid !in after.processes && after.record.state.Terminal? && after.record.outcome == Some(outcome)
      && after.history.releases == c.history.releases + 1 && after.history.confirmations == c.history.confirmations
      && after.receipt == c.receipt && after.reservation == c.reservation
  {
    var c1 := Act(c, Step(pid, input));
    assert c1.processes[pid].pc == PlainFinish(outcome);
  }

  /** A postponed job waits without owner until its retry time; an impossible time leaves it to recovery. */
  lemma DeferEnds(c: Cell, pid: nat, input: Input, retry: real)
    requires pid in c.processes && c.processes[pid].pc == Deferring(retry) && input.ok
    requires c.record.state.Running? && c.processes[pid].token == c.record.token && !c.record.budgetReserved
    requires retry < c.record.envelope.deadline
    ensures var after := Act(c, Step(pid, input));
      && pid !in after.processes && after.reservation == c.reservation
      && (if retry < c.record.envelope.acceptedAt then after.record == c.record
          else after.record.state.Waiting? && after.record.schedule.notBefore == retry)
  {
  }

  lemma DeniedPhase(c: Cell, pid: nat, token: string, input: Input)
    requires Claimed(c, pid, token) && Answering(c, input) && input.payload.PayloadReady? && !input.quota.Granted?
    ensures Shows(Steps(c, pid, input, 4), VerdictOf(c, input), ZeroIntent(Failed))
    ensures pid !in Steps(c, pid, input, 4).processes
  {
    hide ValidRecord, EmergencyFacts, ValidIntent, Transact, Stored;
    var step := Step(pid, input);
    var c1 := Act(c, step);
    assert c1 == Resume(c, pid, c.processes[pid], Reserving);
    var c2 := Act(c1, step);
    assert c2.record == c.record && c2.reservation.None? && c2.history == c.history && c2.receipt.None?;
    Unfold3(c1, pid, input);
    assert Steps(c, pid, input, 4) == Steps(c1, pid, input, 3);
    if input.quota.Denied? && input.quota.retry < c.record.envelope.deadline {
      assert c2.processes[pid] == c.processes[pid].(pc := Deferring(input.quota.retry));
      hide Act;
      DeferEnds(c2, pid, input, input.quota.retry);
      AbsentStep(Act(c2, step), pid, input);
    } else if input.quota.Denied? || input.quota.TooLarge? {
      var outcome := if input.quota.Denied? then Expired else Failed;
      assert c2.processes[pid] == c.processes[pid].(pc := SafeFinish(outcome));
      hide Act;
      UnreservedEnds(c2, pid, input, outcome);
    } else {
      assert pid !in c2.processes;
    }
  }

  /** The job holds its reservation and its feature check comes next. */
  predicate HoldsBudget(c: Cell, pid: nat, token: string, now: real) {
    && Sound(c.record) && token != ""
    && c.record.state.Running? && c.record.token == token
    && c.record.budgetReserved && c.record.settlement.None? && c.record.outcome.None?
    && c.reservation == Some(Reservation(Reserved, c.record.envelope.deadline, map[Requests := 1], None))
    && c.receipt.None? && c.history.deliveryStarts == 0 && c.history.confirmations == 0 && c.history.releases == 0
    && pid in c.processes && c.processes[pid] == Process(token, c.record.envelope, c.record.stage, EpochCheck(now))
    && EmergencyFacts(c.emergency, c.stamped, c.record.envelope.featureEpoch, c.history.extractions)
  }

  lemma GrantedPhase(c: Cell, pid: nat, token: string, input: Input)
    requires Claimed(c, pid, token) && Answering(c, input) && input.payload.PayloadReady? && input.quota.Granted?
    ensures var c3 := Steps(c, pid, input, 3);
      HoldsBudget(c3, pid, token, input.now) && c3.record.envelope == c.record.envelope && c3.record.stage.Media?
      && c3.emergency == c.emergency && c3.stamped == c.stamped
  {
    hide EmergencyFacts, ValidIntent;
    var step := Step(pid, input);
    var c1 := Act(c, step);
    var c2 := Act(c1, step);
    assert c2.record == c.record && c2.processes[pid].pc == Marking(input.now);
    TransitionKeepsRecordReadable(c.record, MarkReserved(token));
    Unfold3(c, pid, input);
  }

  /** The process is about to prepare a settlement it may prepare. */
  predicate ReadyToSettle(c: Cell, pid: nat, intent: SettlementIntent) {
    && Sound(c.record) && c.record.token != ""
    && (c.record.state.Running? || c.record.state.Cancelling? || c.record.state.DeliveryUncertain?)
    && c.record.budgetReserved && c.record.settlement.None? && c.record.outcome.None?
    && c.reservation == Some(Reservation(Reserved, c.record.envelope.deadline, map[Requests := 1], None))
    && c.receipt.None? && c.history.releases == 0
    && pid in c.processes && c.processes[pid].pc == Completing(intent) && c.processes[pid].token == c.record.token
    && OneRequest(intent.actual) && SettlementFits(intent, c.record.envelope, true)
  }

  /** An executor's next step prepares exactly its intent. */
  lemma PreparePhase(c: Cell, pid: nat, input: Input, intent: SettlementIntent)
    requires ReadyToSettle(c, pid, intent) && input.ok
    ensures var c1 := Act(c, Step(pid, input));
      && c1.record == c.record.(state := Settling, settlement := Some(intent))
      && c1.reservation == c.reservation && c1.receipt == c.receipt && c1.history == c.history
      && c1.processes == c.processes[pid := c.processes[pid].(pc := Reconciling(c.record.token, Some(intent)))]
  {
    hide ValidIntent, ValidEnvelope;
  }

  lemma OneRequestAmounts(actual: seq<UnitAmount>)
    requires OneRequest(actual)
    ensures Amounts(actual) == map[Requests := actual[0].amount] && DistinctUnits(actual)
    ensures AnyConsumed(actual) <==> actual[0].amount == 1
  {
    assert actual[..0] == [];
  }

  /** From the budget call on, two steps settle the held reservation and release the ticket. */
  lemma CreditEnds(c: Cell, pid: nat, input: Input)
    requires AtCredit(c, pid) && Sound(c.record) && input.ok && input.verified && input.now >= 0.0
    requires c.reservation == Some(Reservation(Reserved, c.record.envelope.deadline, map[Requests := 1], None))
    requires OneRequest(c.record.settlement.value.actual)
    ensures var after := Act(Act(c, Step(pid, input)), Step(pid, input)); var intent := c.record.settlement.value;
      && pid !in after.processes
      && after.record.state.Terminal? && after.record.outcome == Some(intent.outcome)
      && after.history.releases == c.history.releases + 1
      && after.receipt == c.receipt && after.history.confirmations == c.history.confirmations
      && after.reservation.Some?
      && after.reservation.value.state == (if intent.actual[0].amount == 1 then Committed else Credited)
  {
    hide ValidIntent, ValidEnvelope, Act, Transact;
    OneRequestAmounts(c.record.settlement.value.actual);
    CreditOutcome(c, pid, input);
    SettledTicketEnds(c.record);
  }

  /** After preparation, one step (two with a receipt) reaches the budget call. */
  lemma ReachesBudget(c: Cell, pid: nat, input: Input, intent: SettlementIntent)
    requires pid in c.processes && c.processes[pid].pc == Reconciling(c.record.token, Some(intent)) && input.ok
    requires c.record.state.Settling? && c.record.settlement == Some(intent) && c.record.token != ""
    requires c.receipt.None? && intent.actual != []
    ensures var c1 := Act(c, Step(pid, input));
      var d := if intent.event.Some? then Act(c1, Step(pid, input)) else c1;
      && AtCredit(d, pid) && d.record == c.record && d.reservation == c.reservation
      && d.history.releases == c.history.releases && d.history.confirmations == c.history.confirmations
      && d.receipt == (if intent.event.Some? then intent.event else c.receipt)
  {
    hide Transact, FinishReservation, ValidIntent, Reserve;
  }

  lemma ZeroSettles(c: Cell, pid: nat, input: Input, outcome: JobOutcome)
    requires ReadyToSettle(c, pid, ZeroIntent(outcome)) && input.ok && input.verified && input.now >= 0.0
    ensures var after := Steps(c, pid, input, 4);
      && pid !in after.processes
      && after.record.state.Terminal? && after.record.outcome == Some(outcome)
      && after.history.releases == 1 && after.receipt.None?
      && after.history.confirmations == c.history.confirmations
      && after.reservation.Some? && after.reservation.value.state.Credited?
  {
    hide Sound, ValidIntent, AtCredit, Act, SettlementFits, OneRequest;
    var step := Step(pid, input);
    var intent := ZeroIntent(outcome);
    PreparePhase(c, pid, input, intent);
    var c1 := Act(c, step);
    SettlementStaysSound(c, pid, intent);
    ReachesBudget(c1, pid, input, intent);
    var c2 := Act(c1, step);
    CreditEnds(c2, pid, input);
    Unfold3(c1, pid, input);
    assert Steps(c, pid, input, 4) == Steps(c1, pid, input, 3);
  }

  lemma SettlementStaysSound(c: Cell, pid: nat, intent: SettlementIntent)
    requires ReadyToSettle(c, pid, intent)
    ensures Sound(c.record.(state := Settling, settlement := Some(intent)))
  {
  }

  lemma ChargedSettles(c: Cell, pid: nat, input: Input, intent: SettlementIntent)
    requires ReadyToSettle(c, pid, intent) && input.ok && input.verified && input.now >= 0.0
    requires intent.event.Some? && intent.actual == [UnitAmount(Requests, 1)]
    ensures var after := Steps(c, pid, input, 5);
      && pid !in after.processes
      && after.record.state.Terminal? && after.record.outcome == Some(intent.outcome)
      && after.history.releases == 1 && after.receipt == intent.event
      && after.history.confirmations == c.history.confirmations
      && after.reservation.Some? && after.reservation.value.state.Committed?
  {
    var step := Step(pid, input);
    PreparePhase(c, pid, input, intent);
    var c1 := Act(c, step);
    SettlementStaysSound(c, pid, intent);
    ReachesBudget(c1, pid, input, intent);
    hide Sound, ValidIntent, AtCredit, Act;
    var c2 := Act(c1, step);
    CreditEnds(Act(c2, step), pid, input);
    Unfold3(c2, pid, input);
    assert Steps(c, pid, input, 5) == Steps(c1, pid, input, 4);
    assert Steps(c1, pid, input, 4) == Steps(c2, pid, input, 3);
  }

  // ----- From the feature check to the end -----

  /** Bring a settlement phase to the common number of steps. */
  lemma EndsWithin(c: Cell, pid: nat, input: Input, m: nat, n: nat)
    requires m <= n && pid !in Steps(c, pid, input, m).processes
    ensures Steps(c, pid, input, n) == Steps(c, pid, input, m)
  {
    StepsCompose(c, pid, input, m, n - m);
    GoneStays(Steps(c, pid, input, m), pid, input, n - m);
  }

  lemma ZeroFits(r: AdmissionRecord, outcome: JobOutcome)
    ensures SettlementFits(ZeroIntent(outcome), r.envelope, true) && OneRequest(ZeroIntent(outcome).actual)
  {
    ZeroIntentIsValid(outcome);
  }

  /** The answers that bring an execution to its feature check. */
  predicate ReachesCheck(c: Cell, input: Input) {
    && input.payload.PayloadReady?
    && (if c.record.stage.Media? then input.quota.Granted?
        else !input.quota.BindingChanged? && !input.quota.CountersUnavailable?)
  }

  /** A switched feature ends the job as cancelled; otherwise extraction comes next. */
  lemma CheckPhase(c: Cell, pid: nat, token: string, input: Input)
    requires HoldsBudget(c, pid, token, input.now) && input.ok
    ensures var c1 := Act(c, Step(pid, input));
      if |c.emergency| == c.stamped + 1
      then c1 == Resume(c, pid, c.processes[pid], Extracting(input.now, |c.emergency| - 1))
      else c1 == Resume(c, pid, c.processes[pid], Completing(ZeroIntent(Cancelled)))
  {
    hide Sound;
    CurrentEpochIsTheStamp(c.emergency, c.stamped, c.record.envelope.featureEpoch, c.history.extractions);
  }

  /** Nothing but process bookkeeping and extraction history happened between two cells. */
  predicate SameStores(c: Cell, d: Cell) {
    && d.emergency == c.emergency && d.stamped == c.stamped
    && EmergencyFacts(d.emergency, d.stamped, d.record.envelope.featureEpoch, d.history.extractions)
    && d.record == c.record && d.reservation == c.reservation && d.receipt == c.receipt
    && d.history.confirmations == c.history.confirmations && d.history.releases == c.history.releases
    && d.history.publications == c.history.publications && d.history.deliveryStarts == c.history.deliveryStarts
  }

  /** The executor sits at a program point with its job's stores untouched. */
  predicate At(c: Cell, pid: nat, d: Cell, pc: Pc) {
    && SameStores(c, d) && pid in c.processes && pid in d.processes
    && d.processes[pid] == c.processes[pid].(pc := pc)
  }

  /** From any untouched executor, completing at zero ends the job uncharged. */
  lemma EndsAtZero(c: Cell, pid: nat, token: string, input: Input, d: Cell, outcome: JobOutcome)
    requires HoldsBudget(c, pid, token, input.now) && At(c, pid, d, Completing(ZeroIntent(outcome)))
    requires input.ok && input.verified && input.now >= 0.0
    ensures Shows(Steps(d, pid, input, 4), Ended(outcome, false), ZeroIntent(Failed))
    ensures pid !in Steps(d, pid, input, 4).processes
  {
    hide Sound, ValidIntent, EmergencyFacts, Steps;
    ZeroFits(d.record, outcome);
    ZeroSettles(d, pid, input, outcome);
  }

  lemma ExtractPhase(c: Cell, pid: nat, token: string, input: Input, d: Cell)
    requires HoldsBudget(c, pid, token, input.now) && At(c, pid, d, Extracting(input.now, c.stamped)) && input.ok
    ensures var d1 := Act(d, Step(pid, input));
      match input.extraction
      case Extracted => At(c, pid, d1, Gating(input.now))
      case NeedsBrowser =>
        if c.record.stage.Browser? then SameStores(c, d1) && pid !in d1.processes
        else At(c, pid, d1, if input.browserEnabled then HandingOff else Completing(ZeroIntent(Failed)))
      case TimedOut => At(c, pid, d1, Completing(ZeroIntent(Expired)))
      case ExtractionFailed => At(c, pid, d1, Completing(ZeroIntent(Failed)))
  {
    hide Sound, ValidIntent, EmergencyFacts;
    ExtractionKeepsEmergencyFacts(
      d.emergency, d.stamped, d.record.envelope.featureEpoch, d.history.extractions, c.stamped);
  }

  lemma HandoffPhase(c: Cell, pid: nat, token: string, input: Input, d: Cell)
    requires HoldsBudget(c, pid, token, input.now) && At(c, pid, d, HandingOff) && Answering(c, input)
    requires c.record.stage.Media?
    ensures var after := Act(Act(d, Step(pid, input)), Step(pid, input));
      Shows(after, HandedToBrowser, ZeroIntent(Failed)) && pid !in after.processes
  {
    hide Sound, ValidIntent, EmergencyFacts;
    TransitionKeepsRecordReadable(c.record, Handoff(token, Browser));
    var d1 := Act(d, Step(pid, input));
    assert d1.processes[pid].pc == Publishing(Browser) && d1.record == Applied(c.record, Handoff(token, Browser));
  }

  /** From the gates to the open delivery: three steps, unless the gates are closed. */
  lemma DeliveryOpens(c: Cell, pid: nat, token: string, input: Input, d: Cell)
    requires HoldsBudget(c, pid, token, input.now) && At(c, pid, d, Gating(input.now)) && Answering(c, input)
    requires input.gatesOpen && TechnicalId(token)
    ensures var step := Step(pid, input); var d3 := Act(Act(Act(d, step), step), step);
      && d3.record == c.record.(state := DeliveryUncertain)
      && d3.reservation == c.reservation && d3.receipt.None?
      && d3.history.deliveryStarts == 1 && d3.history.confirmations == 0 && d3.history.releases == 0
      && pid in d3.processes && d3.processes[pid] == c.processes[pid].(pc := DeliveryOpen(input.now))
  {
    hide Sound, ValidIntent, EmergencyFacts;
    var d1 := Act(d, Step(pid, input));
    assert At(c, pid, d1, StartingDelivery(input.now));
    var d2 := Act(d1, Step(pid, input));
    assert d2.processes[pid].pc == Delivering(input.now);
  }

  /** The delivery is open: the executor waits for Telegram's answer. */
  predicate Delivered(c: Cell, pid: nat, token: string, now: real) {
    && Sound(c.record) && token != "" && c.record.state.DeliveryUncertain? && c.record.token == token
    && c.record.budgetReserved && c.record.settlement.None? && c.record.outcome.None?
    && c.reservation == Some(Reservation(Reserved, c.record.envelope.deadline, map[Requests := 1], None))
    && c.receipt.None? && c.history.confirmations == 0 && c.history.releases == 0
    && pid in c.processes && c.processes[pid].pc == DeliveryOpen(now)
    && c.processes[pid].token == token && c.processes[pid].envelope == c.record.envelope
  }

  /** Rejected deliveries end at zero, unknown ones stay uncertain, confirmed ones are charged when they can be. */
  lemma AnswerPhase(c: Cell, pid: nat, token: string, input: Input)
    requires Delivered(c, pid, token, input.now) && Answering(c, input)
    ensures var intent := ChargedIntent(c.record.envelope, input.charges, input.now);
      Shows(
        Steps(c, pid, input, 7),
        if input.delivery.DeliveryRejected? then Ended(Failed, false)
        else if input.delivery.DeliveryUnknown? || !ValidIntent(intent) then LeftUncertain
        else Ended(Complete, true),
        intent)
    ensures pid !in Steps(c, pid, input, 7).processes
  {
    hide Sound, ValidIntent, Transact;
    var step := Step(pid, input);
    var intent := ChargedIntent(c.record.envelope, input.charges, input.now);
    var c1 := Act(c, step);
    var c2 := Act(c1, step);
    match input.delivery {
      case DeliveryRejected =>
        assert c1.processes[pid].pc == Completing(ZeroIntent(Failed));
        hide Act;
        ZeroFits(c1.record, Failed);
        ZeroSettles(c1, pid, input, Failed);
        EndsWithin(c1, pid, input, 4, 6);
      case DeliveryUnknown =>
        hide Act;
        GoneStays(c1, pid, input, 6);
      case DeliveryConfirmed =>
        assert c1.processes[pid].pc == Accounting(input.now);
        if ValidIntent(intent) {
          assert c2.processes[pid].pc == Completing(intent);
          hide Act;
          ChargeFits(c2.record, input.charges, input.now);
          ChargedSettles(c2, pid, input, intent);
        } else {
          hide Act;
          GoneStays(c2, pid, input, 5);
        }
    }
  }

  lemma ChargeFits(r: AdmissionRecord, charges: seq<UsageCharge>, now: real)
    requires ValidIntent(ChargedIntent(r.envelope, charges, now))
    requires r.envelope.acceptedAt <= now < r.envelope.deadline
    ensures SettlementFits(ChargedIntent(r.envelope, charges, now), r.envelope, true)
  {
    hide ValidIntent;
  }

  lemma UnfoldOne(c: Cell, pid: nat, input: Input, n: nat)
    requires n > 0
    ensures Steps(c, pid, input, n) == Steps(Act(c, Step(pid, input)), pid, input, n - 1)
  {
  }

  /** From an extraction that answered to the end of the execution. */
  lemma AfterExtraction(c: Cell, pid: nat, token: string, input: Input, d: Cell)
    requires HoldsBudget(c, pid, token, input.now) && Answering(c, input) && TechnicalId(token)
    requires At(c, pid, d, Gating(input.now))
    ensures Shows(
      Steps(d, pid, input, 10),
      if !input.gatesOpen then Ended(Complete, false)
      else if input.delivery.DeliveryRejected? then Ended(Failed, false)
      else if input.delivery.DeliveryUnknown?
        || !ValidIntent(ChargedIntent(c.record.envelope, input.charges, input.now)) then LeftUncertain
      else Ended(Complete, true),
      ChargedIntent(c.record.envelope, input.charges, input.now))
    ensures pid !in Steps(d, pid, input, 10).processes
  {
    var step := Step(pid, input);
    var d1 := Act(d, step);
    UnfoldOne(d, pid, input, 10);
    if !input.gatesOpen {
      assert At(c, pid, d1, Completing(ZeroIntent(Complete)));
      hide Act, Steps, Sound;
      EndsAtZero(c, pid, token, input, d1, Complete);
      EndsWithin(d1, pid, input, 4, 9);
    } else {
      DeliveryOpens(c, pid, token, input, d);
      DeliveryStaysSound(c.record, token, input.now);
      hide Act, Steps, Sound, ValidIntent;
      var d2 := Act(d1, step);
      UnfoldOne(d1, pid, input, 9);
      UnfoldOne(d2, pid, input, 8);
      AnswerPhase(Act(d2, step), pid, token, input);
    }
  }

  lemma DeliveryStaysSound(r: AdmissionRecord, token: string, now: real)
    requires Sound(r) && r.state.Running? && r.token == token && TechnicalId(token) && 0.0 <= now < r.envelope.deadline
    ensures Sound(r.(state := DeliveryUncertain))
  {
  }

  /** A zero ending shows the same whatever receipt would have been written. */
  lemma UnchargedShows(after: Cell, outcome: JobOutcome, a: SettlementIntent, b: SettlementIntent)
    requires Shows(after, Ended(outcome, false), a)
    ensures Shows(after, Ended(outcome, false), b)
  {
  }

  lemma FromCheck(c: Cell, pid: nat, token: string, input: Input)
    requires HoldsBudget(c, pid, token, input.now) && Answering(c, input) && TechnicalId(token)
    requires ReachesCheck(c, input)
    ensures Shows(
      Steps(c, pid, input, 12), VerdictOf(c, input), ChargedIntent(c.record.envelope, input.charges, input.now))
    ensures pid !in Steps(c, pid, input, 12).processes
  {
    var step := Step(pid, input);
    var intent := ChargedIntent(c.record.envelope, input.charges, input.now);
    var c1 := Act(c, step);
    CheckPhase(c, pid, token, input);
    EpochHere(c, input);
    hide Act, Steps, Sound, ValidIntent, EmergencyFacts;
    UnfoldOne(c, pid, input, 12);
    if |c.emergency| != c.stamped + 1 {
      EndsAtZero(c, pid, token, input, c1, Cancelled);
      EndsWithin(c1, pid, input, 4, 11);
      UnchargedShows(Steps(c1, pid, input, 4), Cancelled, ZeroIntent(Failed), intent);
    } else {
      ExtractPhase(c, pid, token, input, c1);
      var c2 := Act(c1, step);
      UnfoldOne(c1, pid, input, 11);
      AfterExtract(c, pid, token, input, c2);
    }
  }

  lemma EpochHere(c: Cell, input: Input)
    requires EmergencyFacts(c.emergency, c.stamped, c.record.envelope.featureEpoch, c.history.extractions)
    ensures c.stamped < |c.emergency|
  {
  }

  lemma StillRunning(c: Cell, pid: nat, token: string, input: Input, d: Cell)
    requires HoldsBudget(c, pid, token, input.now) && SameStores(c, d)
    ensures Shows(d, LeftRunning, ChargedIntent(c.record.envelope, input.charges, input.now))
  {
    hide Sound, EmergencyFacts;
  }

  lemma AfterExtract(c: Cell, pid: nat, token: string, input: Input, d: Cell)
    requires HoldsBudget(c, pid, token, input.now) && Answering(c, input) && TechnicalId(token)
    requires ReachesCheck(c, input) && |c.emergency| == c.stamped + 1
    requires match input.extraction
      case Extracted => At(c, pid, d, Gating(input.now))
      case NeedsBrowser =>
        if c.record.stage.Browser? then SameStores(c, d) && pid !in d.processes
        else At(c, pid, d, if input.browserEnabled then HandingOff else Completing(ZeroIntent(Failed)))
      case TimedOut => At(c, pid, d, Completing(ZeroIntent(Expired)))
      case ExtractionFailed => At(c, pid, d, Completing(ZeroIntent(Failed)))
    ensures Shows(
      Steps(d, pid, input, 10), VerdictOf(c, input), ChargedIntent(c.record.envelope, input.charges, input.now))
    ensures pid !in Steps(d, pid, input, 10).processes
  {
    hide Act, Steps, Sound, ValidIntent, EmergencyFacts, HoldsBudget;
    var intent := ChargedIntent(c.record.envelope, input.charges, input.now);
    match input.extraction {
      case Extracted => AfterExtraction(c, pid, token, input, d);
      case TimedOut =>
        EndsAtZero(c, pid, token, input, d, Expired);
        EndsWithin(d, pid, input, 4, 10);
        UnchargedShows(Steps(d, pid, input, 4), Expired, ZeroIntent(Failed), intent);
      case ExtractionFailed =>
        EndsAtZero(c, pid, token, input, d, Failed);
        EndsWithin(d, pid, input, 4, 10);
        UnchargedShows(Steps(d, pid, input, 4), Failed, ZeroIntent(Failed), intent);
      case NeedsBrowser =>
        if c.record.stage.Browser? {
          GoneStays(d, pid, input, 10);
          StillRunning(c, pid, token, input, d);
        } else if input.browserEnabled {
          HandoffPhase(c, pid, token, input, d);
          UnfoldOne(d, pid, input, 10);
          UnfoldOne(Act(d, Step(pid, input)), pid, input, 9);
          GoneStays(Act(Act(d, Step(pid, input)), Step(pid, input)), pid, input, 8);
        } else {
          EndsAtZero(c, pid, token, input, d, Failed);
          EndsWithin(d, pid, input, 4, 10);
          UnchargedShows(Steps(d, pid, input, 4), Failed, ZeroIntent(Failed), intent);
        }
    }
  }

  // ----- The whole execution -----

  lemma ClaimPhase(c: Cell, pid: nat, token: string, now: real)
    requires Initial(c) && TechnicalId(token) && 0.0 <= now < c.record.envelope.deadline
    ensures var after := Act(c, Receive(pid, c.record.envelope, Media, now, token));
      Claimed(after, pid, token) && after.record.envelope == c.record.envelope
      && after.emergency == c.emergency && after.stamped == c.stamped
  {
    TransitionKeepsRecordReadable(c.record, Claim(Media, now, token, Some(c.record.envelope)));
  }

  /** From the claim to the end of an execution whose answers never change. */
  lemma SteadyExecution(c: Cell, pid: nat, token: string, input: Input)
    requires Claimed(c, pid, token) && Answering(c, input)
    ensures var after := Steps(c, pid, input, 15);
      && pid !in after.processes
      && Shows(after, VerdictOf(c, input), ChargedIntent(c.record.envelope, input.charges, input.now))
  {
    ClaimedIsMedia(c, pid, token);
    hide Act, Steps, Sound, ValidIntent, EmergencyFacts, Claimed, Shows;
    if !input.payload.PayloadReady? {
      PayloadPhase(c, pid, token, input);
      EndsWithin(c, pid, input, 3, 15);
      UnconfirmedShows(Steps(c, pid, input, 3), c, input);
    } else if !input.quota.Granted? {
      DeniedPhase(c, pid, token, input);
      EndsWithin(c, pid, input, 4, 15);
      UnconfirmedShows(Steps(c, pid, input, 4), c, input);
    } else {
      GrantedPhase(c, pid, token, input);
      StepsCompose(c, pid, input, 3, 12);
      SameVerdict(Steps(c, pid, input, 3), c, input);
      FromCheck(Steps(c, pid, input, 3), pid, token, input);
    }
  }

  lemma ClaimedIsMedia(c: Cell, pid: nat, token: string)
    requires Claimed(c, pid, token)
    ensures c.record.stage.Media? && TechnicalId(token)
    ensures pid in c.processes && c.processes[pid].envelope == c.record.envelope && c.processes[pid].pc.Loading?
  {
  }

  /** The table looks at the envelope, the stage and the feature's log only. */
  lemma SameVerdict(a: Cell, b: Cell, input: Input)
    requires a.record.envelope == b.record.envelope && a.record.stage == b.record.stage
    requires a.emergency == b.emergency && a.stamped == b.stamped
    ensures VerdictOf(a, input) == VerdictOf(b, input)
  {
    hide ValidIntent;
  }

  /** Before the feature check nothing is charged, so the receipt does not matter. */
  lemma UnconfirmedShows(after: Cell, c: Cell, input: Input)
    requires Shows(after, VerdictOf(c, input), ZeroIntent(Failed))
    requires !input.payload.PayloadReady? || (c.record.stage.Media? && !input.quota.Granted?)
      || input.quota.BindingChanged? || input.quota.CountersUnavailable?
    ensures Shows(after, VerdictOf(c, input), ChargedIntent(c.record.envelope, input.charges, input.now))
  {
    hide ValidIntent, ReadyForBrowser;
  }

  // ----- The browser continuation -----

  /** A browser-stage job in the hands of one process, its reservation still held. */
  predicate BrowserClaimed(c: Cell, pid: nat, token: string) {
    && Sound(c.record) && TechnicalId(token)
    && c.record.state.Running? && c.record.token == token && c.record.stage.Browser?
    && c.record.budgetReserved && c.record.settlement.None? && c.record.outcome.None?
    && c.reservation == Some(Reservation(Reserved, c.record.envelope.deadline, map[Requests := 1], None))
    && c.receipt.None?
    && c.history.deliveryStarts == 0 && c.history.confirmations == 0 && c.history.releases == 0
    && pid in c.processes && c.processes[pid] == Process(token, c.record.envelope, Browser, Loading)
    && EmergencyFacts(c.emergency, c.stamped, c.record.envelope.featureEpoch, c.history.extractions)
  }

  lemma BrowserClaimPhase(c: Cell, pid: nat, token: string, now: real)
    requires ReadyForBrowser(c) && pid !in c.processes && TechnicalId(token) && 0.0 <= now < c.record.envelope.deadline
    ensures var after := Act(c, Receive(pid, c.record.envelope, Browser, now, token));
      BrowserClaimed(after, pid, token) && after.record.envelope == c.record.envelope
      && after.emergency == c.emergency && after.stamped == c.stamped
  {
    hide ValidRecord, EmergencyFacts;
    TransitionKeepsRecordReadable(c.record, Claim(Browser, now, token, Some(c.record.envelope)));
  }

  /** Without its payload a reserved job settles at zero. */
  lemma BrowserPayloadPhase(c: Cell, pid: nat, token: string, input: Input)
    requires BrowserClaimed(c, pid, token) && Answering(c, input) && !input.payload.PayloadReady?
    ensures Shows(Steps(c, pid, input, 6), VerdictOf(c, input), ZeroIntent(Failed))
    ensures pid !in Steps(c, pid, input, 6).processes
  {
    hide Sound, EmergencyFacts, ValidIntent;
    var outcome := if input.payload.PayloadExpired? then Expired else PayloadUnavailable;
    var step := Step(pid, input);
    var c1 := Act(c, step);
    assert c1.processes[pid].pc == SafeFinish(outcome);
    var c2 := Act(c1, step);
    assert c2.processes[pid] == c.processes[pid].(pc := Completing(ZeroIntent(outcome)));
    TokenOf(token);
    hide Act, Steps;
    UnfoldOne(c, pid, input, 6);
    UnfoldOne(c1, pid, input, 5);
    ZeroFits(c2.record, outcome);
    ZeroSettles(c2, pid, input, outcome);
  }

  lemma TokenOf(token: string)
    requires TechnicalId(token)
    ensures token != ""
  {
  }

  /** The held reservation is replayed; counters that cannot be read leave the job to recovery. */
  lemma BrowserReservePhase(c: Cell, pid: nat, token: string, input: Input)
    requires BrowserClaimed(c, pid, token) && Answering(c, input) && input.payload.PayloadReady?
    ensures if input.quota.BindingChanged? || input.quota.CountersUnavailable?
      then Shows(Steps(c, pid, input, 3), LeftRunning, ZeroIntent(Failed)) && pid !in Steps(c, pid, input, 3).processes
      else var c3 := Steps(c, pid, input, 3);
        HoldsBudget(c3, pid, token, input.now) && c3.record.envelope == c.record.envelope && c3.record.stage.Browser?
        && c3.emergency == c.emergency && c3.stamped == c.stamped
  {
    hide EmergencyFacts, ValidIntent, ValidRecord;
    var step := Step(pid, input);
    var c1 := Act(c, step);
    var c2 := Act(c1, step);
    assert c2.record == c.record && c2.reservation == c.reservation && c2.history == c.history;
    TokenOf(token);
    TransitionKeepsRecordReadable(c.record, MarkReserved(token));
    Unfold3(c, pid, input);
  }

  /** From the browser's claim to the end of an execution whose answers never change. */
  lemma SteadyBrowserExecution(c: Cell, pid: nat, token: string, input: Input)
    requires BrowserClaimed(c, pid, token) && Answering(c, input)
    ensures var after := Steps(c, pid, input, 15);
      && pid !in after.processes
      && Shows(after, VerdictOf(c, input), ChargedIntent(c.record.envelope, input.charges, input.now))
  {
    BrowserClaimedIsBrowser(c, pid, token);
    hide Act, Steps, Sound, ValidIntent, EmergencyFacts, BrowserClaimed, Shows;
    if !input.payload.PayloadReady? {
      BrowserPayloadPhase(c, pid, token, input);
      EndsWithin(c, pid, input, 6, 15);
      UnconfirmedShows(Steps(c, pid, input, 6), c, input);
    } else {
      BrowserReservePhase(c, pid, token, input);
      if input.quota.BindingChanged? || input.quota.CountersUnavailable? {
        EndsWithin(c, pid, input, 3, 15);
        UnconfirmedShows(Steps(c, pid, input, 3), c, input);
      } else {
        StepsCompose(c, pid, input, 3, 12);
        SameVerdict(Steps(c, pid, input, 3), c, input);
        FromCheck(Steps(c, pid, input, 3), pid, token, input);
      }
    }
  }

  lemma BrowserClaimedIsBrowser(c: Cell, pid: nat, token: string)
    requires BrowserClaimed(c, pid, token)
    ensures c.record.stage.Browser? && TechnicalId(token)
    ensures pid in c.processes && c.processes[pid].envelope == c.record.envelope && c.processes[pid].pc.Loading?
  {
  }

  // ----- Answers and clock readings that differ from step to step -----

  /** The same process taking one step on each set of answers. */
  function VariedSteps(c: Cell, pid: nat, inputs: seq<Input>): Cell
    decreases |inputs|
  {
    if inputs == [] then c else VariedSteps(Act(c, Step(pid, inputs[0])), pid, inputs[1..])
  }

  /** The answer each call of an execution acts on, taken from the step that makes the call. */
  function ActedOn(inputs: seq<Input>): Input
    requires |inputs| == 15
  {
    Input(
      true, inputs[1].now, inputs[0].payload, inputs[1].quota, inputs[4].extraction, inputs[4].browserEnabled,
      inputs[5].gatesOpen, inputs[8].delivery, inputs[9].charges, true)
  }

  /** The execution's program points are where the step counter says. */
  predicate Placed(pc: Pc, i: nat) {
    match pc
    case Loading => i == 0
    case Reserving => i == 1
    case Marking(_) => i == 2
    case EpochCheck(_) => i == 3
    case Extracting(_, _) => i == 4
    case Gating(_) => i == 5
    case StartingDelivery(_) => i == 6
    case Delivering(_) => i == 7
    case DeliveryOpen(_) => i == 8
    case Accounting(_) => i == 9
    case SafeFinish(_) => true
    case PlainFinish(_) => true
    case Deferring(_) => true
    case HandingOff => true
    case Publishing(_) => true
    case Completing(_) => true
    case Reconciling(_, _) => true
    case Recording(_) => true
    case Crediting(_) => true
    case Releasing(_) => true
    case _ => false
  }

  predicate Alike(a: seq<Publication>, b: seq<Publication>) {
    |a| == |b| && forall i :: 0 <= i < |a| ==> a[i].envelope == b[i].envelope && a[i].stage == b[i].stage
  }

  /** Equal but for the times at which deliveries and publications were made. */
  predicate Like(c: Cell, d: Cell) {
    && c == d.(history := d.history.(deliveries := c.history.deliveries, publications := c.history.publications))
    && Alike(c.history.publications, d.history.publications)
  }

  /** The process is gone or at the step's program point, working on its own job. */
  predicate Follows(c: Cell, pid: nat, envelope: JobEnvelope, i: nat) {
    pid in c.processes ==>
      && c.processes[pid].envelope == envelope && c.record.envelope == envelope && Placed(c.processes[pid].pc, i)
  }

  /** One step's answers serve a step of the steady execution. */
  predicate Serves(envelope: JobEnvelope, input: Input, steady: Input, i: nat) {
    && input.ok && input.verified && 0.0 <= input.now < envelope.deadline
    && steady.ok && steady.verified && 0.0 <= steady.now < envelope.deadline
    && (i == 0 ==> input.payload == steady.payload)
    && (i == 1 ==> input.quota == steady.quota && input.now == steady.now)
    && (i == 4 ==> input.extraction == steady.extraction && input.browserEnabled == steady.browserEnabled)
    && (i == 5 ==> input.gatesOpen == steady.gatesOpen)
    && (i == 8 ==> input.delivery == steady.delivery)
    && (i == 9 ==> input.charges == steady.charges)
  }

  lemma {:induction false} OwnerKeepsEnvelope(r: AdmissionRecord, t: Transition)
    requires t.MarkReserved? || t.Handoff? || t.Finish? || t.Defer? || t.BeginDelivery? || t.Prepare?
    ensures Stored(r, Transact(r, t)).envelope == r.envelope
  {
    hide ValidRecord, ValidIntent, ValidEnvelope;
  }

  /** Inside the job's lifetime neither the delivery fence nor a settlement looks at the clock. */
  lemma {:induction false} ClockDoesNotDecide(
    r: AdmissionRecord, token: string, held: Option<Reservation>, actual: seq<UnitAmount>, a: real, b: real)
    requires 0.0 <= a < r.envelope.deadline && 0.0 <= b < r.envelope.deadline
    ensures Transact(r, BeginDelivery(token, a)) == Transact(r, BeginDelivery(token, b))
    ensures FinishReservation(held, actual, a, true) == FinishReservation(held, actual, b, true)
  {
    hide ValidRecord, Amounts, WithinEstimates, DistinctUnits;
  }

  /** Two executions at the same point, the next answers serving both. */
  predicate Aligned(c: Cell, d: Cell, pid: nat, envelope: JobEnvelope, input: Input, steady: Input, i: nat) {
    Like(c, d) && Follows(c, pid, envelope, i) && Serves(envelope, input, steady, i)
  }

  predicate Agree(c: Cell, d: Cell, pid: nat, envelope: JobEnvelope, input: Input, steady: Input, i: nat) {
    && Like(Act(c, Step(pid, input)), Act(d, Step(pid, steady)))
    && Follows(Act(c, Step(pid, input)), pid, envelope, i + 1)
  }

  lemma {:induction false} ReservingAgrees(
    c: Cell, d: Cell, pid: nat, envelope: JobEnvelope, input: Input, steady: Input, i: nat)
    requires Aligned(c, d, pid, envelope, input, steady, i) && pid in c.processes
    requires c.processes[pid].pc.Loading? || c.processes[pid].pc.Reserving?
    ensures Agree(c, d, pid, envelope, input, steady, i)
  {
    hide Alike, ValidIntent, Reserve, Transact, Stored;
  }

  lemma {:induction false} MarkingAgrees(
    c: Cell, d: Cell, pid: nat, envelope: JobEnvelope, input: Input, steady: Input, i: nat)
    requires Aligned(c, d, pid, envelope, input, steady, i) && pid in c.processes
    requires c.processes[pid].pc.Marking?
    ensures Agree(c, d, pid, envelope, input, steady, i)
  {
    hide Alike, ValidIntent, Reserve, Transact, Stored;
    OwnerKeepsEnvelope(c.record, MarkReserved(c.processes[pid].token));
  }

  lemma {:induction false} ExtractingAgrees(
    c: Cell, d: Cell, pid: nat, envelope: JobEnvelope, input: Input, steady: Input, i: nat)
    requires Aligned(c, d, pid, envelope, input, steady, i) && pid in c.processes
    requires var pc := c.processes[pid].pc; pc.EpochCheck? || pc.Extracting? || pc.Gating?
    ensures Agree(c, d, pid, envelope, input, steady, i)
  {
    hide Alike, ValidIntent, Reserve, Transact, Stored;
  }

  lemma {:induction false} DeliveringAgrees(
    c: Cell, d: Cell, pid: nat, envelope: JobEnvelope, input: Input, steady: Input, i: nat)
    requires Aligned(c, d, pid, envelope, input, steady, i) && pid in c.processes
    requires var pc := c.processes[pid].pc; pc.StartingDelivery? || pc.Delivering? || pc.DeliveryOpen? || pc.Accounting?
    ensures Agree(c, d, pid, envelope, input, steady, i)
  {
    hide Alike, ValidIntent, Reserve, Transact, Stored;
    var token := c.processes[pid].token;
    OwnerKeepsEnvelope(c.record, BeginDelivery(token, input.now));
    ClockDoesNotDecide(c.record, token, c.reservation, [], input.now, steady.now);
  }

  lemma {:induction false} PreparingAgrees(
    c: Cell, d: Cell, pid: nat, envelope: JobEnvelope, input: Input, steady: Input, i: nat)
    requires Aligned(c, d, pid, envelope, input, steady, i) && pid in c.processes
    requires var pc := c.processes[pid].pc; pc.Completing? || pc.Reconciling?
    ensures Agree(c, d, pid, envelope, input, steady, i)
  {
    hide Alike, ValidIntent, Reserve, Transact, Stored, FinishReservation;
    var p := c.processes[pid];
    if p.pc.Completing? { OwnerKeepsEnvelope(c.record, Prepare(p.token, p.pc.intent)); }
  }

  lemma {:induction false} BookingAgrees(
    c: Cell, d: Cell, pid: nat, envelope: JobEnvelope, input: Input, steady: Input, i: nat)
    requires Aligned(c, d, pid, envelope, input, steady, i) && pid in c.processes
    requires c.processes[pid].pc.Recording? || c.processes[pid].pc.Releasing?
    ensures Agree(c, d, pid, envelope, input, steady, i)
  {
    hide Alike, ValidIntent, Reserve, Transact, Stored, FinishReservation;
  }

  lemma {:induction false} CreditingAgrees(
    c: Cell, d: Cell, pid: nat, envelope: JobEnvelope, input: Input, steady: Input, i: nat)
    requires Aligned(c, d, pid, envelope, input, steady, i) && pid in c.processes
    requires c.processes[pid].pc.Crediting?
    ensures Agree(c, d, pid, envelope, input, steady, i)
  {
    hide Alike, ValidIntent, Reserve, Transact, Stored, FinishReservation;
    ClockDoesNotDecide(
      c.record, "", c.reservation, c.processes[pid].pc.intent.actual, input.now, steady.now);
  }

  lemma {:induction false} LeavingAgrees(
    c: Cell, d: Cell, pid: nat, envelope: JobEnvelope, input: Input, steady: Input, i: nat)
    requires Aligned(c, d, pid, envelope, input, steady, i) && pid in c.processes
    requires var pc := c.processes[pid].pc; pc.SafeFinish? || pc.PlainFinish? || pc.Deferring?
    ensures Agree(c, d, pid, envelope, input, steady, i)
  {
    hide Alike, ValidIntent, Reserve, Transact, Stored, FinishReservation;
    var p := c.processes[pid];
    if p.pc.Deferring? { OwnerKeepsEnvelope(c.record, Defer(p.token, p.pc.retry)); }
  }

  lemma {:induction false} HandingOffAgrees(
    c: Cell, d: Cell, pid: nat, envelope: JobEnvelope, input: Input, steady: Input, i: nat)
    requires Aligned(c, d, pid, envelope, input, steady, i) && pid in c.processes
    requires var pc := c.processes[pid].pc; pc.HandingOff? || pc.Publishing?
    ensures Agree(c, d, pid, envelope, input, steady, i)
  {
    hide ValidIntent, Reserve, Transact, Stored, FinishReservation;
    var p := c.processes[pid];
    if p.pc.HandingOff? { OwnerKeepsEnvelope(c.record, Handoff(p.token, Browser)); }
  }

  lemma {:induction false} StepsAgree(
    c: Cell, d: Cell, pid: nat, envelope: JobEnvelope, input: Input, steady: Input, i: nat)
    requires Aligned(c, d, pid, envelope, input, steady, i)
    ensures Agree(c, d, pid, envelope, input, steady, i)
  {
    if pid in c.processes {
      assert Placed(c.processes[pid].pc, i);
      hide Aligned, Agree;
      var pc := c.processes[pid].pc;
      if pc.Loading? || pc.Reserving? { ReservingAgrees(c, d, pid, envelope, input, steady, i); }
      else if pc.Marking? { MarkingAgrees(c, d, pid, envelope, input, steady, i); }
      else if pc.EpochCheck? || pc.Extracting? || pc.Gating? {
        ExtractingAgrees(c, d, pid, envelope, input, steady, i);
      } else if pc.StartingDelivery? || pc.Delivering? || pc.DeliveryOpen? || pc.Accounting? {
        DeliveringAgrees(c, d, pid, envelope, input, steady, i);
      } else if pc.Completing? || pc.Reconciling? { PreparingAgrees(c, d, pid, envelope, input, steady, i); }
      else if pc.Recording? || pc.Releasing? { BookingAgrees(c, d, pid, envelope, input, steady, i); }
      else if pc.Crediting? { CreditingAgrees(c, d, pid, envelope, input, steady, i); }
      else if pc.HandingOff? || pc.Publishing? { HandingOffAgrees(c, d, pid, envelope, input, steady, i); }
      else { LeavingAgrees(c, d, pid, envelope, input, steady, i); }
    }
  }

  /** An execution goes the way it would go if every call had the answers it acts on. */
  lemma {:induction false} ExecutionsAgree(
    c: Cell, d: Cell, pid: nat, envelope: JobEnvelope, inputs: seq<Input>, steady: Input, i: nat)
    requires Like(c, d) && Follows(c, pid, envelope, i)
    requires forall k :: 0 <= k < |inputs| ==> Serves(envelope, inputs[k], steady, i + k)
    ensures Like(VariedSteps(c, pid, inputs), Steps(d, pid, steady, |inputs|))
    decreases |inputs|
  {
    hide Act, Like, Follows, Serves;
    if inputs != [] {
      assert Serves(envelope, inputs[0], steady, i + 0);
      StepsAgree(c, d, pid, envelope, inputs[0], steady, i);
      forall k | 0 <= k < |inputs[1..]| ensures Serves(envelope, inputs[1..][k], steady, i + 1 + k) {
        assert inputs[1..][k] == inputs[k + 1];
      }
      ExecutionsAgree(
        Act(c, Step(pid, inputs[0])), Act(d, Step(pid, steady)), pid, envelope, inputs[1..], steady, i + 1);
    }
  }

  /** Every call answers and reads a clock within the job's lifetime, not necessarily a monotone one. */
  predicate AllAnswering(c: Cell, inputs: seq<Input>) {
    forall i :: 0 <= i < |inputs| ==> Answering(c, inputs[i])
  }

  lemma {:induction false} LikeShows(c: Cell, d: Cell, verdict: Verdict, receipt: SettlementIntent)
    requires Like(c, d) && Shows(d, verdict, receipt)
    ensures Shows(c, verdict, receipt) && c.processes == d.processes
  {
    hide EmergencyFacts, Sound;
  }

  /** From a claim on, an execution ends as the steady one with the answers it acts on. */
  lemma {:induction false} VariedFollowsSteady(
    c: Cell, pid: nat, inputs: seq<Input>, verdict: Verdict, receipt: SettlementIntent)
    requires |inputs| == 15 && AllAnswering(c, inputs)
    requires pid in c.processes && c.processes[pid].envelope == c.record.envelope && c.processes[pid].pc.Loading?
    requires pid !in Steps(c, pid, ActedOn(inputs), 15).processes
    requires Shows(Steps(c, pid, ActedOn(inputs), 15), verdict, receipt)
    ensures var after := VariedSteps(c, pid, inputs); pid !in after.processes && Shows(after, verdict, receipt)
  {
    var steady := ActedOn(inputs);
    assert forall k :: 0 <= k < |inputs| ==> Serves(c.record.envelope, inputs[k], steady, 0 + k);
    hide Shows, VariedSteps, Steps, Serves;
    ExecutionsAgree(c, c, pid, c.record.envelope, inputs, steady, 0);
    LikeShows(VariedSteps(c, pid, inputs), Steps(c, pid, steady, 15), verdict, receipt);
  }

  /**
   * A fresh job whose message arrives in time and whose every call answers ends as the decision table
   * says of the answers it acts on, within fifteen steps, and its execution is over: delivered and charged
   * once, settled at zero, waiting, handed to the browser, or left for recovery.
   */
  lemma ExecutionFollowsTheTable(c: Cell, pid: nat, token: string, now: real, inputs: seq<Input>)
    requires Initial(c) && TechnicalId(token) && 0.0 <= now < c.record.envelope.deadline
    requires |inputs| == 15 && AllAnswering(c, inputs)
    ensures var after := VariedSteps(Act(c, Receive(pid, c.record.envelope, Media, now, token)), pid, inputs);
      var acted := ActedOn(inputs);
      && pid !in after.processes
      && Shows(after, VerdictOf(c, acted), ChargedIntent(c.record.envelope, acted.charges, acted.now))
  {
    var claimed := Act(c, Receive(pid, c.record.envelope, Media, now, token));
    var acted := ActedOn(inputs);
    ClaimPhase(c, pid, token, now);
    InitialIsMedia(c);
    ClaimedIsMedia(claimed, pid, token);
    hide Act, Initial, Claimed, Shows, Steps, VariedSteps;
    SameVerdict(claimed, c, acted);
    SteadyExecution(claimed, pid, token, acted);
    VariedFollowsSteady(
      claimed, pid, inputs, VerdictOf(c, acted), ChargedIntent(c.record.envelope, acted.charges, acted.now));
  }

  lemma InitialIsMedia(c: Cell)
    requires Initial(c)
    ensures c.record.stage.Media?
  {
  }

  /**
   * A job handed to the browser ends by the same table when its message arrives in time and its calls
   * answer, the first extraction and this one together charging it at most once.
   */
  lemma BrowserExecutionFollowsTheTable(c: Cell, pid: nat, token: string, now: real, inputs: seq<Input>)
    requires ReadyForBrowser(c) && pid !in c.processes && TechnicalId(token) && 0.0 <= now < c.record.envelope.deadline
    requires |inputs| == 15 && AllAnswering(c, inputs)
    ensures var after := VariedSteps(Act(c, Receive(pid, c.record.envelope, Browser, now, token)), pid, inputs);
      var acted := ActedOn(inputs);
      && pid !in after.processes
      && Shows(after, VerdictOf(c, acted), ChargedIntent(c.record.envelope, acted.charges, acted.now))
  {
    var claimed := Act(c, Receive(pid, c.record.envelope, Browser, now, token));
    var acted := ActedOn(inputs);
    BrowserClaimPhase(c, pid, token, now);
    BrowserClaimedIsBrowser(claimed, pid, token);
    hide Act, BrowserClaimed, Shows, Steps, VariedSteps;
    SameVerdict(claimed, c, acted);
    SteadyBrowserExecution(claimed, pid, token, acted);
    VariedFollowsSteady(
      claimed, pid, inputs, VerdictOf(c, acted), ChargedIntent(c.record.envelope, acted.charges, acted.now));
  }
}
