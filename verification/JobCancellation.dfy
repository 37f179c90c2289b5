/** A job cancelled while it is being executed: never delivered, never charged, settled at zero. */
module JobCancellation {
  import opened Wrappers
  import opened Usage
  import opened Jobs
  import opened AdmissionState
  import opened Budgets
  import opened SettlementProtocol
  import opened JobGuarantees
  import opened JobExecution

  // ----- No delivery after a cancellation, in any continuation -----

  /** The job was stopped before its delivery began. */
  predicate Stopped(c: Cell) {
    && (c.record.state.Cancelling? || c.record.state.Settling? || c.record.state.Terminal?)
    && c.history.deliveryStarts == 0
  }

  lemma {:induction false} StoppedTicketStays(r: AdmissionRecord, t: Transition)
    requires Shape(r) && (r.state.Cancelling? || r.state.Settling? || r.state.Terminal?)
    ensures var after := Applied(r, t); after.state.Cancelling? || after.state.Settling? || after.state.Terminal?
  {
    hide ValidRecord, ValidIntent;
  }

  lemma {:induction false} StoppedAct(c: Cell, a: Action)
    requires Reachable(c) && Stopped(c)
    ensures Reachable(Act(c, a)) && Stopped(Act(c, a))
  {
    hide Act, Inv, Sound, ValidRecord;
    var t := ActTransacts(c, a);
    ReachableShape(c);
    StoppedTicketStays(c.record, t);
    RunOne(c, a);
    RunsStayReachable(c, [a]);
    StoppedNeverDelivers(c, a);
  }

  lemma ReachableShape(c: Cell)
    requires Reachable(c)
    ensures Shape(c.record)
  {
    SoundHasShape(c.record);
  }

  lemma {:induction false} StoppedNeverDelivers(c: Cell, a: Action)
    requires Reachable(c) && Stopped(c)
    ensures Act(c, a).history.deliveryStarts == 0
  {
    hide Sound;
    if a.Step? && a.pid in c.processes {
      Here(c, a.pid);
      assert !c.processes[a.pid].pc.Delivering?;
    }
    hide Inv, Act;
    OnlyDeliveringDelivers(c, a);
  }

  lemma {:induction false} OnlyDeliveringDelivers(c: Cell, a: Action)
    requires a.Step? && a.pid in c.processes ==> !c.processes[a.pid].pc.Delivering?
    ensures Act(c, a).history.deliveryStarts == c.history.deliveryStarts
  {
    hide Transact, Stored, ValidIntent, Reserve, FinishReservation;
  }

  /** Once a running job is cancelled, no continuation starts its delivery, writes a receipt or charges it. */
  lemma {:induction false} CancelledIsNeverDelivered(c: Cell, actions: seq<Action>)
    requires Reachable(c) && Stopped(c)
    ensures var after := Run(c, actions);
      && Stopped(after) && after.receipt.None? && after.history.confirmations == 0
      && (after.history.settledWith.Some? ==> after.history.settledWith == Some(map[Requests := 0]))
    decreases |actions|
  {
    hide Reachable, Stopped, Act;
    if actions == [] {
      StoppedIsUncharged(c);
    } else {
      StoppedAct(c, actions[0]);
      CancelledIsNeverDelivered(Act(c, actions[0]), actions[1..]);
    }
  }

  lemma {:induction false} StoppedIsUncharged(c: Cell)
    requires Reachable(c) && Stopped(c)
    ensures c.receipt.None? && c.history.confirmations == 0
    ensures c.history.settledWith.Some? ==> c.history.settledWith == Some(map[Requests := 0])
  {
    hide EmergencyFacts, AllDue, AllBefore, AllPublishedBefore, ValidEnvelope;
    if c.record.settlement.Some? { OneRequestAmounts(c.record.settlement.value.actual); }
  }

  // ----- How the executor ends it -----

  /** The executor holds its reservation when the cancellation is found. */
  predicate CancelledHolding(c: Cell, pid: nat) {
    && Sound(c.record) && c.record.state.Cancelling?
    && c.record.settlement.None? && c.record.outcome.None?
    && c.reservation == Some(Reservation(Reserved, c.record.envelope.deadline, map[Requests := 1], None))
    && c.receipt.None? && c.history.releases == 0 && c.history.confirmations == 0
    && pid in c.processes && c.processes[pid].token == c.record.token
    && c.processes[pid].envelope == c.record.envelope
  }

  /** The executor stands where it looks for a cancellation: its mark, the delivery fence, or the handoff. */
  predicate AtFence(c: Cell, pid: nat) {
    && pid in c.processes
    && (c.processes[pid].pc.Marking?
        || (c.record.budgetReserved && (c.processes[pid].pc.StartingDelivery? || c.processes[pid].pc.HandingOff?)))
  }

  lemma {:induction false} FenceStops(c: Cell, pid: nat, input: Input)
    requires CancelledHolding(c, pid) && AtFence(c, pid) && input.ok && input.now >= 0.0
    ensures var after := Act(c, Step(pid, input));
      && ReadyToSettle(after, pid, ZeroIntent(Cancelled)) && after.history == c.history
      && after.record == c.record.(budgetReserved := true)
  {
    TransitionKeepsRecordReadable(c.record, MarkReserved(c.record.token));
    ZeroFits(c.record, Cancelled);
    OwnerIsNamed(c.record);
    hide ValidRecord, ValidIntent, ValidEnvelope, SettlementFits, OneRequest;
  }

  lemma OwnerIsNamed(r: AdmissionRecord)
    requires Sound(r) && r.state.Cancelling?
    ensures r.token != "" && TechnicalId(r.token)
  {
  }

  predicate SettlementPc(pc: Pc) {
    pc.Completing? || pc.Reconciling? || pc.Recording? || pc.Crediting? || pc.Releasing?
  }

  predicate SameDoings(c: Cell, after: Cell) {
    && after.history.extractions == c.history.extractions
    && after.history.deliveryStarts == c.history.deliveryStarts
    && after.history.publications == c.history.publications
  }

  lemma {:induction false} SettlementStepIsQuiet(c: Cell, pid: nat, input: Input)
    requires pid in c.processes ==> SettlementPc(c.processes[pid].pc)
    ensures var after := Act(c, Step(pid, input));
      SameDoings(c, after) && (pid in after.processes ==> SettlementPc(after.processes[pid].pc))
  {
    hide Transact, Stored, ValidIntent, FinishReservation;
  }

  lemma {:induction false} SettlementIsQuiet(c: Cell, pid: nat, input: Input, n: nat)
    requires pid in c.processes ==> SettlementPc(c.processes[pid].pc)
    ensures SameDoings(c, Steps(c, pid, input, n))
    decreases n
  {
    hide Act, SettlementPc;
    if n > 0 {
      SettlementStepIsQuiet(c, pid, input);
      SettlementIsQuiet(Act(c, Step(pid, input)), pid, input, n - 1);
    }
  }

  lemma {:induction false} SteadyCancellation(c: Cell, pid: nat, input: Input)
    requires CancelledHolding(c, pid) && AtFence(c, pid) && input.ok && input.verified && input.now >= 0.0
    ensures EndedCancelled(c, pid, Steps(c, pid, input, 5))
  {
    FenceStops(c, pid, input);
    var stopped := Act(c, Step(pid, input));
    assert pid in stopped.processes && SettlementPc(stopped.processes[pid].pc);
    assert stopped.history.confirmations == 0;
    hide Act, ReadyToSettle, CancelledHolding;
    UnfoldOne(c, pid, input, 5);
    ZeroSettles(stopped, pid, input, Cancelled);
    SettlementIsQuiet(stopped, pid, input, 4);
  }

  /** Over: cancelled, uncharged, its reservation given back; nothing was extracted, delivered or sent since. */
  predicate EndedCancelled(c: Cell, pid: nat, after: Cell) {
    && pid !in after.processes
    && after.record.state.Terminal? && after.record.outcome == Some(Cancelled)
    && after.history.releases == 1 && after.receipt.None? && after.history.confirmations == 0
    && after.reservation.Some? && after.reservation.value.state.Credited?
    && after.history.extractions == c.history.extractions && after.history.deliveryStarts == c.history.deliveryStarts
    && |after.history.publications| == |c.history.publications|
  }

  /** A steady set of answers that five steps from this fence act on. */
  function SteadyFrom(inputs: seq<Input>): Input
    requires |inputs| == 5
  {
    Input(true, 0.0, PayloadReady, Granted, inputs[2].extraction, inputs[2].browserEnabled, inputs[3].gatesOpen,
          inputs[2].delivery, inputs[3].charges, true)
  }

  function StepOf(pc: Pc): nat {
    if pc.Marking? then 2 else if pc.StartingDelivery? then 6 else 10
  }

  /**
   * A job found cancelled at its mark, at the delivery fence or at the handoff is settled at zero as cancelled
   * in five answered steps, whatever else those steps are told.
   */
  lemma {:induction false} CancelledSettlesAtZero(c: Cell, pid: nat, inputs: seq<Input>)
    requires CancelledHolding(c, pid) && AtFence(c, pid) && |inputs| == 5 && AllAnswering(c, inputs)
    ensures EndedCancelled(c, pid, VariedSteps(c, pid, inputs))
  {
    var pc := c.processes[pid].pc;
    var steady := SteadyFrom(inputs);
    assert Follows(c, pid, c.record.envelope, StepOf(pc));
    LifetimeOf(c.record);
    forall k | 0 <= k < |inputs| ensures Serves(c.record.envelope, inputs[k], steady, StepOf(pc) + k) {
      assert Answering(c, inputs[k]);
    }
    SteadyCancellation(c, pid, steady);
    hide VariedSteps, Steps, CancelledHolding;
    ExecutionsAgree(c, c, pid, c.record.envelope, inputs, steady, StepOf(pc));
  }

  lemma LifetimeOf(r: AdmissionRecord)
    requires Sound(r)
    ensures 0.0 < r.envelope.deadline
  {
  }
}
