/**
 * What holds of one job over every run that starts with its admission, whichever messages repeat,
 * processes crash, sweeps overlap, reservations lapse and features are switched.
 */
module JobGuarantees {
  import opened Wrappers
  import opened Usage
  import opened Jobs
  import opened AdmissionState
  import opened Budgets
  import opened SettlementProtocol

  /** An action's whole effect on the ticket is at most one admission transaction. */
  lemma ActTransacts(c: Cell, a: Action) returns (t: Transition)
    ensures Act(c, a).record == c.record || Act(c, a).record == Applied(c.record, t)
  {
    hide Transact, Stored, Reserve, FinishReservation, ValidIntent;
    t := Cancel;
    match a {
      case Receive(_, envelope, stage, now, token) => t := Claim(stage, now, token, Some(envelope));
      case Outside(transition) => t := transition;
      case Enqueue(_, notBefore, _) => t := Register(c.record.envelope, notBefore);
      case Step(pid, input) => if pid in c.processes { t := StepTransition(c.processes[pid], input); }
      case _ =>
    }
  }

  /** The transaction a process attempts at its program point, when it attempts one. */
  function StepTransition(p: Process, input: Input): Transition {
    match p.pc
    case PlainFinish(outcome) => Finish(outcome, p.token)
    case Deferring(retry) => Defer(p.token, retry)
    case Marking(_) => MarkReserved(p.token)
    case HandingOff => Handoff(p.token, Browser)
    case StartingDelivery(_) => BeginDelivery(p.token, input.now)
    case Completing(intent) => Prepare(p.token, intent)
    case Releasing(intent) => Finish(intent.outcome, p.token)
    case ExpiringUnclaimed => Finish(Expired, "")
    case ExpiringQueued(stage, now) => Claim(stage, now, "expiry", None)
    case Republishing(stage, attempt, now) => Republish(stage, attempt, now)
    case _ => Cancel
  }

  /** What every run from an accepted job keeps; it holds of each cell that such a run reaches. */
  predicate Reachable(c: Cell) {
    Inv(c) && Sound(c.record)
  }

  lemma {:induction false} RunsStayReachable(c: Cell, actions: seq<Action>)
    requires Reachable(c)
    ensures Reachable(Run(c, actions))
    ensures Evolves(c.record, Run(c, actions).record)
    decreases |actions|
  {
    hide Inv, Sound, ValidRecord, Act;
    EvolvesReflexive(c.record);
    if actions != [] {
      var next := Act(c, actions[0]);
      var t := ActTransacts(c, actions[0]);
      ActKeeps(c, actions[0]);
      SoundHasShape(c.record);
      TransitionKeepsRecordReadable(c.record, t);
      TransitionEvolves(c.record, t);
      RunsStayReachable(next, actions[1..]);
    }
  }

  lemma EvolvesReflexive(r: AdmissionRecord)
    ensures Evolves(r, r)
  {
  }

  lemma JobsStartReachable(c: Cell)
    requires Initial(c)
    ensures Reachable(c)
  {
    InitialHolds(c);
  }

  lemma JobRun(c: Cell, actions: seq<Action>)
    requires Initial(c)
    ensures Reachable(Run(c, actions)) && Evolves(c.record, Run(c, actions).record)
  {
    JobsStartReachable(c);
    RunsStayReachable(c, actions);
  }

  // ----- Delivery -----

  /** Delivery starts at most once per job, and can be confirmed only after it started. */
  lemma DeliveredAtMostOnce(c: Cell, actions: seq<Action>)
    requires Initial(c)
    ensures Run(c, actions).history.confirmations <= Run(c, actions).history.deliveryStarts <= 1
  {
    JobRun(c, actions);
  }

  /** Two processes never execute the same job at the same time, not even across a browser handoff. */
  lemma OneExecutorAtATime(c: Cell, actions: seq<Action>, a: nat, b: nat)
    requires Initial(c)
    requires a in Run(c, actions).processes && b in Run(c, actions).processes
    requires Holding(Run(c, actions).processes[a].pc) && Holding(Run(c, actions).processes[b].pc)
    ensures a == b
  {
    JobRun(c, actions);
  }

  /** Once delivery may have begun, no broker message and no sweep ever obtains the job again. */
  lemma DeliveryFenceIsFinal(c: Cell, actions: seq<Action>, more: seq<Action>)
    requires Initial(c) && Run(c, actions).record.state.DeliveryUncertain?
    ensures !Queued(Run(c, actions + more).record.state) && !Run(c, actions + more).record.state.Running?
  {
    JobRun(c, actions);
    RunsCompose(c, actions, more);
    RunsStayReachable(Run(c, actions), more);
  }

  lemma {:induction false} RunsCompose(c: Cell, actions: seq<Action>, more: seq<Action>)
    ensures Run(c, actions + more) == Run(Run(c, actions), more)
    decreases |actions|
  {
    if actions == [] {
      assert actions + more == more;
    } else {
      assert (actions + more)[1..] == actions[1..] + more;
      RunsCompose(Act(c, actions[0]), actions[1..], more);
    }
  }

  // ----- Accounting -----

  /** The receipt and the runtime settlement are each written at most once. */
  lemma AccountedAtMostOnce(c: Cell, actions: seq<Action>)
    requires Initial(c)
    ensures var after := Run(c, actions);
      && after.history.receiptsWritten <= 1
      && after.history.settlementsWritten <= 1
      && (after.history.receiptsWritten == 1 <==> after.receipt.Some?)
  {
    JobRun(c, actions);
  }

  /**
   * Admission is never released ahead of accounting: a job that ended through a settlement has its
   * receipt recorded exactly as prepared and its reservation settled at exactly the prepared amounts.
   */
  lemma SettledBeforeReleased(c: Cell, actions: seq<Action>)
    requires Initial(c)
    ensures var after := Run(c, actions);
      after.record.state.Terminal? && after.record.settlement.Some? ==>
        var intent := after.record.settlement.value;
        && after.receipt == intent.event
        && (intent.actual != [] ==> after.history.settledWith == Some(Amounts(intent.actual)))
        && after.record.outcome == Some(intent.outcome)
  {
    JobRun(c, actions);
  }

  /** A stored reservation always tells the same story as the settlement that was made. */
  lemma ReservationAgreesWithSettlement(c: Cell, actions: seq<Action>)
    requires Initial(c)
    ensures var after := Run(c, actions);
      after.reservation.Some? ==>
        && (Settled(after.reservation.value.state) <==> after.reservation.value.actual.Some?)
        && (Settled(after.reservation.value.state) ==>
              after.reservation.value.actual == after.history.settledWith)
        && (after.reservation.value.state.Reserved? ==> after.history.settledWith.None?)
  {
    JobRun(c, actions);
  }

  /**
   * Only a confirmed delivery is charged: a recorded receipt belongs to a job that was delivered
   * exactly once, completed, and is charged to its own subject within its own lifetime.
   */
  lemma OnlyConfirmedDeliveriesAreCharged(c: Cell, actions: seq<Action>)
    requires Initial(c)
    ensures var after := Run(c, actions);
      after.receipt.Some? ==>
        && after.history.deliveryStarts == 1 && after.history.confirmations == 1
        && ValidEvent(after.receipt.value)
        && after.receipt.value.eventId == c.record.envelope.jobId
        && after.receipt.value.subject
          == AccountingSubject(c.record.envelope.chargedKind, c.record.envelope.chargedTelegramId)
        && c.record.envelope.acceptedAt.Floor <= after.receipt.value.occurredAt <= c.record.envelope.deadline.Floor
  {
    hide Inv;
    JobRun(c, actions);
    if Run(c, actions).receipt.Some? { ReceiptFacts(Run(c, actions)); }
  }

  lemma ReceiptFacts(c: Cell)
    requires Reachable(c) && c.receipt.Some?
    ensures c.history.deliveryStarts == 1 && c.history.confirmations == 1
    ensures c.record.settlement.Some? && c.record.settlement.value.event == c.receipt
    ensures c.record.settlement.value.outcome.Complete?
    ensures SettlementFits(c.record.settlement.value, c.record.envelope, c.record.budgetReserved)
  {
  }

  /** A job that ended other than complete, or whose delivery is still uncertain, was never charged or settled. */
  lemma FailedJobsAreNotCharged(c: Cell, actions: seq<Action>)
    requires Initial(c)
    ensures var after := Run(c, actions);
      after.record.outcome.Some? && !after.record.outcome.value.Complete? ==>
        after.receipt.None? && after.history.receiptsWritten == 0
    ensures var after := Run(c, actions);
      after.record.state.DeliveryUncertain? ==>
        && after.receipt.None? && after.history.receiptsWritten == 0
        && after.history.settlementsWritten == 0 && after.history.settledWith.None?
  {
    hide Inv;
    JobRun(c, actions);
    var after := Run(c, actions);
    SettlementFactsHere(after);
    if after.receipt.Some? { ReceiptFacts(after); }
  }

  lemma SettlementFactsHere(c: Cell)
    requires Reachable(c)
    ensures AccountingFacts(c) && DeliveryFacts(c) && Shape(c.record)
  {
  }

  /** A completed settlement with a receipt does charge the confirmed delivery. */
  lemma ConfirmedSettlementIsCharged(c: Cell, actions: seq<Action>)
    requires Initial(c)
    ensures var after := Run(c, actions);
      after.record.state.Terminal? && after.record.settlement.Some?
      && AnyConsumed(after.record.settlement.value.actual) ==>
        after.receipt.Some? && after.history.receiptsWritten == 1 && after.history.confirmations == 1
  {
    hide Inv;
    JobRun(c, actions);
    var after := Run(c, actions);
    SettlementFactsHere(after);
    if after.receipt.Some? { ReceiptFacts(after); }
  }

  /** Capacity is given back exactly once, when the job ends. */
  lemma CapacityReturnedOnce(c: Cell, actions: seq<Action>)
    requires Initial(c)
    ensures var after := Run(c, actions);
      after.history.releases == if after.record.state.Terminal? then 1 else 0
  {
    JobRun(c, actions);
  }

  // ----- Emergency fence -----

  /**
   * Whoever passes the worker's check saw the very feature state the job was stamped with: the check
   * lets the job through exactly when the feature has not changed at all since the stamp.
   */
  lemma EpochFence(c: Cell, actions: seq<Action>, pid: nat, input: Input)
    requires Initial(c)
    requires pid in Run(c, actions).processes && Run(c, actions).processes[pid].pc.EpochCheck? && input.ok
    ensures var before := Run(c, actions); var after := Act(before, Step(pid, input));
      && pid in after.processes
      && (after.processes[pid].pc.Extracting? <==> |before.emergency| == c.stamped + 1)
      && (!after.processes[pid].pc.Extracting? ==> after.processes[pid].pc == Completing(ZeroIntent(Cancelled)))
  {
    hide Inv, Run, EmergencyFacts, Facts, Sound;
    JobRun(c, actions);
    StampIsFixed(c, actions);
    var before := Run(c, actions);
    InvGivesFacts(before);
    EpochHere(before);
    EnvelopeHere(before, pid);
    CheckNeedsTheStamp(before, pid, before.processes[pid]);
  }

  lemma CheckNeedsTheStamp(c: Cell, pid: nat, p: Process)
    requires Facts(c) && p.pc.EpochCheck? && p.envelope == c.record.envelope
    ensures var after := EpochStep(c, pid, p, p.pc.now);
      && pid in after.processes
      && (after.processes[pid].pc.Extracting? <==> |c.emergency| == c.stamped + 1)
      && (!after.processes[pid].pc.Extracting? ==> after.processes[pid].pc == Completing(ZeroIntent(Cancelled)))
  {
    CurrentEpochIsTheStamp(c.emergency, c.stamped, c.record.envelope.featureEpoch, c.history.extractions);
  }

  lemma {:induction false} StampIsFixed(c: Cell, actions: seq<Action>)
    ensures Run(c, actions).stamped == c.stamped
    ensures c.emergency <= Run(c, actions).emergency
    decreases |actions|
  {
    hide Act;
    if actions != [] {
      ActKeepsStamp(c, actions[0]);
      StampIsFixed(Act(c, actions[0]), actions[1..]);
    }
  }

  lemma ActKeepsStamp(c: Cell, a: Action)
    ensures Act(c, a).stamped == c.stamped && c.emergency <= Act(c, a).emergency
  {
    hide Transact, Stored, Reserve, FinishReservation, ValidIntent;
  }

  /** A job stamped before the feature was disabled never starts extracting later, re-enabled or not. */
  lemma DisabledFeatureIsNeverExtracted(c: Cell, actions: seq<Action>, more: seq<Action>, disabledAt: nat)
    requires Initial(c) && c.stamped < disabledAt < |Run(c, actions).emergency|
    requires Run(c, actions).emergency[disabledAt].disabled
    requires forall pid :: pid in Run(c, actions).processes ==> !Run(c, actions).processes[pid].pc.Extracting?
    ensures var after := Run(Run(c, actions), more);
      && after.history.extractions == Run(c, actions).history.extractions
      && forall pid :: pid in after.processes ==> !after.processes[pid].pc.Extracting?
  {
    JobRun(c, actions);
    StampIsFixed(c, actions);
    NoLateExtraction(Run(c, actions), more);
  }

  lemma {:induction false} NoLateExtraction(c: Cell, actions: seq<Action>)
    requires Inv(c) && |c.emergency| > c.stamped + 1
    requires forall pid :: pid in c.processes ==> !c.processes[pid].pc.Extracting?
    ensures Run(c, actions).history.extractions == c.history.extractions
    ensures forall pid :: pid in Run(c, actions).processes ==> !Run(c, actions).processes[pid].pc.Extracting?
    decreases |actions|
  {
    hide Act, Inv;
    if actions != [] {
      ActKeeps(c, actions[0]);
      ActKeepsStamp(c, actions[0]);
      NoLateExtractionStep(c, actions[0]);
      NoLateExtraction(Act(c, actions[0]), actions[1..]);
    }
  }

  lemma NoLateExtractionStep(c: Cell, a: Action)
    requires Inv(c) && |c.emergency| > c.stamped + 1
    requires forall pid :: pid in c.processes ==> !c.processes[pid].pc.Extracting?
    ensures Act(c, a).history.extractions == c.history.extractions
    ensures forall pid :: pid in Act(c, a).processes ==> !Act(c, a).processes[pid].pc.Extracting?
  {
    hide Inv, EmergencyFacts, Commit, Transact, Facts, ProcessStep;
    InvGivesFacts(c);
    EpochHere(c);
    match a {
      case Step(pid, input) =>
        if pid in c.processes {
          EnvelopeHere(c, pid);
          StepEntersExtraction(c, pid, c.processes[pid], input);
        }
      case Outside(t) => CommitOnlyWritesTicket(c, t);
      case Enqueue(_, notBefore, _) => CommitOnlyWritesTicket(c, Register(c.record.envelope, notBefore));
      case Receive(_, envelope, stage, now, token) =>
        CommitOnlyWritesTicket(c, Claim(stage, now, token, Some(envelope)));
      case _ =>
    }
  }

  lemma EnvelopeHere(c: Cell, pid: nat)
    requires Inv(c) && pid in c.processes
    ensures c.processes[pid].pc.EpochCheck? ==> c.processes[pid].envelope == c.record.envelope
  {
  }

  lemma CommitOnlyWritesTicket(c: Cell, t: Transition)
    ensures Commit(c, t).processes == c.processes && Commit(c, t).emergency == c.emergency
    ensures Commit(c, t).history.extractions == c.history.extractions
  {
  }

  lemma EpochHere(c: Cell)
    requires Facts(c)
    ensures c.emergency != [] && c.emergency[|c.emergency| - 1].epoch == |c.emergency| - 1
    ensures c.record.envelope.featureEpoch == c.stamped
  {
  }

  /** Only the acting process changes, and extraction is entered only through a passed check. */
  ghost predicate MovesOnly(c: Cell, pid: nat, p: Process, after: Cell) {
    && after.history.extractions == c.history.extractions
    && (after.processes == c.processes - {pid}
        || (pid in after.processes && after.processes == c.processes[pid := after.processes[pid]]))
    && (pid in after.processes && after.processes[pid].pc.Extracting? ==>
          p.pc.EpochCheck? && c.emergency != []
          && EnvelopeIsCurrent(p.envelope.featureEpoch, c.emergency[|c.emergency| - 1]))
  }

  predicate EarlyPc(pc: Pc) {
    pc.Loading? || pc.SafeFinish? || pc.PlainFinish? || pc.Reserving? || pc.Deferring? || pc.Marking? || pc.EpochCheck?
  }

  predicate MiddlePc(pc: Pc) {
    pc.HandingOff? || pc.Gating? || pc.StartingDelivery? || pc.Delivering? || pc.DeliveryOpen? || pc.Accounting?
    || pc.Completing?
  }

  lemma EarlyStepMoves(c: Cell, pid: nat, p: Process, input: Input)
    requires pid in c.processes && p == c.processes[pid] && EarlyPc(p.pc)
    ensures MovesOnly(c, pid, p, ProcessStep(c, pid, p, input))
  {
    hide Commit, Succeeded, RaisedError, Transact, Stored, Reserve, FinishReservation, ValidIntent;
    CommitOnlyWritesTicket(c, StepTransition(p, input));
  }

  lemma MiddleStepMoves(c: Cell, pid: nat, p: Process, input: Input)
    requires pid in c.processes && p == c.processes[pid] && MiddlePc(p.pc)
    ensures MovesOnly(c, pid, p, ProcessStep(c, pid, p, input))
  {
    hide Commit, Succeeded, RaisedError, Transact, Stored, Reserve, FinishReservation, ValidIntent;
    CommitOnlyWritesTicket(c, StepTransition(p, input));
  }

  lemma LateStepMoves(c: Cell, pid: nat, p: Process, input: Input)
    requires pid in c.processes && p == c.processes[pid]
    requires !EarlyPc(p.pc) && !MiddlePc(p.pc) && !p.pc.Extracting?
    ensures MovesOnly(c, pid, p, ProcessStep(c, pid, p, input))
  {
    hide Commit, Succeeded, RaisedError, Transact, Stored, Reserve, FinishReservation, ValidIntent;
    CommitOnlyWritesTicket(c, StepTransition(p, input));
  }

  lemma StepEntersExtraction(c: Cell, pid: nat, p: Process, input: Input)
    requires pid in c.processes && p == c.processes[pid] && !p.pc.Extracting?
    ensures MovesOnly(c, pid, p, ProcessStep(c, pid, p, input))
  {
    hide MovesOnly, ProcessStep;
    if EarlyPc(p.pc) { EarlyStepMoves(c, pid, p, input); }
    else if MiddlePc(p.pc) { MiddleStepMoves(c, pid, p, input); }
    else { LateStepMoves(c, pid, p, input); }
  }

  // ----- Deadline -----

  /** Nothing renews the deadline: claims, delivery starts and publications all fall before the original one. */
  lemma DeadlineIsNeverRenewed(c: Cell, actions: seq<Action>)
    requires Initial(c)
    ensures var after := Run(c, actions); var envelope := c.record.envelope;
      && after.record.envelope == envelope
      && envelope.deadline <= envelope.acceptedAt + MAX_JOB_LIFETIME_SECONDS
      && 0.0 <= after.record.schedule.notBefore < envelope.deadline
      && AllDue(after.history.claims, envelope.deadline)
      && AllBefore(after.history.deliveries, envelope.deadline)
      && AllPublishedBefore(after.history.publications, envelope)
  {
    JobRun(c, actions);
  }

  // ----- Progress -----

  /** A prepared settlement can be closed only while its reservation is still held or remembers being settled. */
  predicate Closable(reservation: Option<Reservation>) {
    reservation.Some? && (reservation.value.state.Reserved? || Settled(reservation.value.state))
  }

  /** Settlement is prepared, its reservation is gone or was reclaimed, and nobody is past the budget call. */
  predicate Stranded(c: Cell) {
    && c.record.state.Settling?
    && !Closable(c.reservation)
    && forall pid :: pid in c.processes ==> !c.processes[pid].pc.Releasing?
  }

  lemma SettlingProcesses(c: Cell, pid: nat)
    requires Inv(c) && c.record.state.Settling? && pid in c.processes
    ensures !Holding(c.processes[pid].pc)
    ensures c.processes[pid].pc.Crediting? || c.processes[pid].pc.Recording? ==>
      OneRequest(c.processes[pid].pc.intent.actual)
  {
  }

  lemma SettlingFacts(c: Cell)
    requires Inv(c) && c.record.state.Settling?
    ensures c.record.settlement.Some? && c.record.token != ""
    ensures OneRequest(c.record.settlement.value.actual)
    ensures ReservationFacts(c.reservation, c.history.settledWith)
    ensures c.history.settledWith.Some? ==>
      c.history.settledWith == Some(Amounts(c.record.settlement.value.actual))
    ensures c.receipt.Some? ==> c.receipt == c.record.settlement.value.event
  {
  }

  /** Settling at one request needs only that the reservation can be closed. */
  lemma OneRequestSettles(reservation: Option<Reservation>, settledWith: Option<map<UsageUnit, int>>,
                          actual: seq<UnitAmount>, now: real)
    requires ReservationFacts(reservation, settledWith) && OneRequest(actual) && now >= 0.0
    requires settledWith.Some? ==> settledWith == Some(Amounts(actual))
    ensures var (answer, after) := FinishReservation(reservation, actual, now, true);
      (answer.Success? && Settled(answer.value)) <==> Closable(reservation)
  {
    assert actual[..|actual| - 1] == [];
    assert Amounts(actual) == map[Requests := actual[0].amount];
    assert DistinctUnits(actual);
  }

  /** A reservation that cannot be closed stays as it is, and is never answered as settled. */
  lemma UnclosableStays(reservation: Option<Reservation>, settledWith: Option<map<UsageUnit, int>>,
                        actual: seq<UnitAmount>, now: real, verified: bool)
    requires ReservationFacts(reservation, settledWith) && !Closable(reservation)
    ensures var (answer, after) := FinishReservation(reservation, actual, now, verified);
      after == reservation && !(answer.Success? && Settled(answer.value))
  {
    hide Amounts, WithinEstimates, DistinctUnits;
  }

  lemma StrandedSettlementStep(c: Cell, pid: nat, p: Process, input: Input)
    requires Inv(c) && Stranded(c) && pid in c.processes && p == c.processes[pid]
    requires p.pc.Reconciling? || p.pc.Recording? || p.pc.Crediting?
    ensures Stranded(ProcessStep(c, pid, p, input))
  {
    hide Inv, Facts, ValidIntent, Transact, Stored, FinishReservation, Closable, ReservationFacts;
    SettlingProcesses(c, pid);
    SettlingFacts(c);
    if p.pc.Crediting? {
      UnclosableStays(c.reservation, c.history.settledWith, p.pc.intent.actual, input.now, input.verified);
    }
  }

  lemma StrandedOtherStep(c: Cell, pid: nat, p: Process, input: Input)
    requires Inv(c) && Stranded(c) && pid in c.processes && p == c.processes[pid]
    requires !Holding(p.pc) && !p.pc.Reconciling? && !p.pc.Recording? && !p.pc.Crediting?
    ensures Stranded(ProcessStep(c, pid, p, input))
  {
    hide Inv, Facts, ValidIntent, Transact, Stored, Closable;
    ShapeHere(c);
    if p.pc.ExpiringUnclaimed? || p.pc.ExpiringQueued? || p.pc.Republishing? {
      OwnerHasToken(c);
      OwnerIsFenced(c.record, StepTransition(p, input));
    }
  }

  lemma OwnerHasToken(c: Cell)
    requires Inv(c) && c.record.state.Settling?
    ensures c.record.token != ""
  {
  }

  lemma StrandedStep(c: Cell, pid: nat, p: Process, input: Input)
    requires Inv(c) && Stranded(c) && pid in c.processes && p == c.processes[pid]
    ensures Stranded(ProcessStep(c, pid, p, input))
  {
    hide Inv, ProcessStep, Closable;
    SettlingProcesses(c, pid);
    if p.pc.Reconciling? || p.pc.Recording? || p.pc.Crediting? {
      StrandedSettlementStep(c, pid, p, input);
    } else {
      StrandedOtherStep(c, pid, p, input);
    }
  }

  lemma ShapeHere(c: Cell)
    requires Inv(c)
    ensures Shape(c.record)
  {
  }

  lemma StrandedAct(c: Cell, a: Action)
    requires Inv(c) && Stranded(c)
    ensures Stranded(Act(c, a))
  {
    hide Inv, Facts, ProcessStep, ValidIntent, Transact, Stored;
    OwnerHasToken(c);
    ShapeHere(c);
    match a {
      case Step(pid, input) => if pid in c.processes { StrandedStep(c, pid, c.processes[pid], input); }
      case Receive(_, envelope, stage, now, token) => OwnerIsFenced(c.record, Claim(stage, now, token, Some(envelope)));
      case Outside(t) => if FromOutside(t) { OwnerIsFenced(c.record, t); }
      case Enqueue(_, notBefore, _) => OwnerIsFenced(c.record, Register(c.record.envelope, notBefore));
      case _ =>
    }
  }

  /** A stranded settlement never finishes, however often it is swept and whatever answers. */
  lemma {:induction false} StrandedForever(c: Cell, actions: seq<Action>)
    requires Inv(c) && Stranded(c)
    ensures Stranded(Run(c, actions))
    decreases |actions|
  {
    hide Inv, Act, Stranded;
    if actions != [] {
      ActKeeps(c, actions[0]);
      StrandedAct(c, actions[0]);
      StrandedForever(Act(c, actions[0]), actions[1..]);
    }
  }

  /**
   * Reclaiming a reservation ten minutes past its deadline while its settlement is still waiting
   * leaves a ticket that keeps its capacity in every continuation.
   */
  lemma LateReclaimStrands(c: Cell, now: real, more: seq<Action>)
    requires Reachable(c) && c.record.state.Settling?
    requires c.reservation.Some? && c.reservation.value.state.Reserved?
    requires c.reservation.value.deadline <= now - STALE_RESERVATION_GRACE_SECONDS
    ensures var after := Run(Act(c, ExpireStaleReservation(now)), more);
      after.record.state.Settling? && after.history.releases == 0
  {
    hide Inv, Sound, ProcessStep;
    ReservedMeansUnsettled(c);
    ActKeeps(c, ExpireStaleReservation(now));
    var reclaimed := Act(c, ExpireStaleReservation(now));
    StrandedForever(reclaimed, more);
    RunKeeps(reclaimed, more);
    ReleaseCount(Run(reclaimed, more));
  }

  lemma ReservedMeansUnsettled(c: Cell)
    requires Inv(c) && c.record.state.Settling?
    requires c.reservation.Some? && c.reservation.value.state.Reserved?
    ensures forall pid :: pid in c.processes ==> !c.processes[pid].pc.Releasing?
  {
  }

  lemma ReleaseCount(c: Cell)
    requires Inv(c) && !c.record.state.Terminal?
    ensures c.history.releases == 0
  {
  }

  /** The process is about to settle the reservation of the ticket's own prepared settlement. */
  predicate AtCredit(c: Cell, pid: nat) {
    && pid in c.processes && c.record.state.Settling? && c.record.settlement.Some?
    && c.processes[pid].pc == Crediting(c.record.settlement.value)
    && c.processes[pid].token == c.record.token && c.record.token != ""
  }

  /** What settling the reservation and releasing the ticket leave behind, as two steps. */
  lemma CreditOutcome(c: Cell, pid: nat, input: Input)
    requires AtCredit(c, pid) && input.ok
    ensures var after := Act(Act(c, Step(pid, input)), Step(pid, input));
      var intent := c.record.settlement.value;
      var finish := Finish(intent.outcome, c.record.token);
      var (answer, held) := FinishReservation(c.reservation, intent.actual, input.now, input.verified);
      var settled := answer.Success? && Settled(answer.value);
      && after.reservation == held
      && after.record == (if settled then Applied(c.record, finish) else c.record)
      && pid !in after.processes
      && after.receipt == c.receipt && after.history.confirmations == c.history.confirmations
      && after.history.releases == c.history.releases
           + if settled && Transact(c.record, finish).Change? && Transact(c.record, finish).release then 1 else 0
  {
    hide FinishReservation, Transact, Stored;
  }

  lemma SettledTicketEnds(r: AdmissionRecord)
    requires r.state.Settling? && r.settlement.Some? && r.token != ""
    ensures var finish := Finish(r.settlement.value.outcome, r.token);
      && Transact(r, finish).Change? && Transact(r, finish).release
      && Applied(r, finish).state.Terminal? && Applied(r, finish).outcome == Some(r.settlement.value.outcome)
  {
  }

  lemma CreditThenRelease(c: Cell, pid: nat, input: Input)
    requires Inv(c) && AtCredit(c, pid) && input.ok && input.verified && input.now >= 0.0
    ensures var after := Act(Act(c, Step(pid, input)), Step(pid, input));
      pid !in after.processes && (after.record.state.Terminal? <==> Closable(c.reservation))
  {
    hide Inv, Act, FinishReservation, Closable, ReservationFacts, OneRequest, Applied;
    SettlingFacts(c);
    OneRequestSettles(c.reservation, c.history.settledWith, c.record.settlement.value.actual, input.now);
    CreditOutcome(c, pid, input);
    SettledTicketEnds(c.record);
  }

  /** One sweep of this ticket in which every call answers. */
  function AnsweredSweep(pid: nat, input: Input): seq<Action> {
    var step := Step(pid, input);
    [Sweep(pid), step, step, step, step, step]
  }

  /** The first three or four steps of the sweep reach the budget call without touching the reservation. */
  lemma SweepReachesCredit(c: Cell, pid: nat, input: Input)
    requires Reachable(c) && c.record.state.Settling? && pid !in c.processes && input.ok
    ensures var step := Step(pid, input);
      var third := Act(Act(Act(c, Sweep(pid)), step), step);
      if c.record.settlement.Some? && c.record.settlement.value.event.Some?
      then AtCredit(Act(third, step), pid) && Act(third, step).reservation == c.reservation
      else AtCredit(third, pid) && third.reservation == c.reservation
  {
    hide Inv, Sound, FinishReservation, ReservationFacts, ValidIntent, Transact, Stored, Reserve, Commit;
    SettlingFacts(c);
  }

  lemma AbsentStep(c: Cell, pid: nat, input: Input)
    requires pid !in c.processes
    ensures Act(c, Step(pid, input)) == c
  {
  }

  lemma RunCons(c: Cell, a: Action, rest: seq<Action>)
    ensures Run(c, [a] + rest) == Run(Act(c, a), rest)
  {
    hide Act;
    assert ([a] + rest)[1..] == rest;
  }

  lemma RunSix(c: Cell, a: Action, step: Action)
    ensures Run(c, [a, step, step, step, step, step])
      == Act(Act(Act(Act(Act(Act(c, a), step), step), step), step), step)
  {
    hide Act, Run;
    var c1 := Act(c, a);
    var c3 := Act(Act(c1, step), step);
    RunCons(c, a, [step, step, step, step, step]);
    RunCons(c1, step, [step, step, step, step]);
    RunCons(Act(c1, step), step, [step, step, step]);
    RunCons(c3, step, [step, step]);
    RunCons(Act(c3, step), step, [step]);
    RunOne(Act(Act(c3, step), step), step);
    assert [a] + [step, step, step, step, step] == [a, step, step, step, step, step];
    assert [step] + [step, step, step, step] == [step, step, step, step, step];
    assert [step] + [step, step, step] == [step, step, step, step];
    assert [step] + [step, step] == [step, step, step];
    assert [step] + [step] == [step, step];
  }

  lemma RunOne(c: Cell, a: Action)
    ensures Run(c, [a]) == Act(c, a)
  {
    hide Act;
    assert Run(c, [a]) == Run(Act(c, a), []);
  }

  /**
   * A sweep whose every call answers takes a prepared settlement to its end exactly when the
   * reservation is still held or already settled.
   */
  lemma SweepFinishesExactlyClosable(c: Cell, pid: nat, input: Input)
    requires Reachable(c) && c.record.state.Settling? && pid !in c.processes
    requires input.ok && input.verified && input.now >= 0.0
    ensures Run(c, AnsweredSweep(pid, input)).record.state.Terminal? <==> Closable(c.reservation)
  {
    hide Inv, Sound, Act, Closable, AtCredit;
    var step := Step(pid, input);
    var first := Act(c, Sweep(pid));
    var third := Act(Act(first, step), step);
    RunSix(c, Sweep(pid), step);
    SweepReachesCredit(c, pid, input);
    ActKeeps(c, Sweep(pid));
    ActKeeps(first, step);
    ActKeeps(Act(first, step), step);
    ActKeeps(third, step);
    if c.record.settlement.Some? && c.record.settlement.value.event.Some? {
      CreditThenRelease(Act(third, step), pid, input);
    } else {
      CreditThenRelease(third, pid, input);
      AbsentStep(Act(Act(third, step), step), pid, input);
    }
  }
}
