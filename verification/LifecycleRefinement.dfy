/** The step-by-step protocol and the sequential settlement service agree on an uninterrupted settlement. */
module LifecycleRefinement {
  import opened Wrappers
  import opened Usage
  import opened Jobs
  import opened AdmissionState
  import opened Budgets
  import opened SettlementProtocol
  import opened JobGuarantees
  import opened WorkerLifecycle

  lemma StoresOutcome(s: Stores, r: AdmissionRecord, a: Answers)
    requires var id := r.envelope.jobId;
      id in s.tickets && s.tickets[id] == r && Sound(r) && r.state.Settling? && r.settlement.Some?
      && r.settlement.value.actual != [] && LedgerAccepts(s, r.settlement.value)
    requires AllAnswer(a)
    ensures var id := r.envelope.jobId; var intent := r.settlement.value;
      var (failure, after) := Reconciled(s, r, a);
      var (answer, held) := FinishReservation(Held(s, id), intent.actual, a.now, true);
      && Held(after, id) == held
      && id in after.tickets
      && after.tickets[id] == (if answer.Success? && Settled(answer.value)
                               then Applied(r, Finish(intent.outcome, r.token)) else r)
      && (failure.None? <==> answer.Success? && Settled(answer.value))
  {
    hide Sound, ValidIntent, ValidEvent, Transact, FinishReservation;
    PreparedHasOwner(r);
    FinishKeepsPresence(Held(s, r.envelope.jobId), r.settlement.value.actual, a.now);
  }

  lemma FinishKeepsPresence(held: Option<Reservation>, actual: seq<UnitAmount>, now: real)
    ensures FinishReservation(held, actual, now, true).1.Some? <==> held.Some?
  {
  }

  /**
   * From every reachable settling job, a sweep of answered steps leaves the ticket and the reservation
   * exactly as one call of the service does on stores that hold the same ticket and reservation.
   */
  lemma SweepAgreesWithService(c: Cell, pid: nat, input: Input, s: Stores, a: Answers)
    requires Reachable(c) && c.record.state.Settling? && pid !in c.processes
    requires input.ok && input.verified && AllAnswer(a) && a.now == input.now
    requires var id := c.record.envelope.jobId;
      id in s.tickets && s.tickets[id] == c.record && Held(s, id) == c.reservation
    requires c.record.settlement.Some? ==> LedgerAccepts(s, c.record.settlement.value)
    ensures var id := c.record.envelope.jobId;
      var after := Run(c, AnsweredSweep(pid, input));
      var (failure, stores) := Reconciled(s, c.record, a);
      && id in stores.tickets && after.record == stores.tickets[id] && after.reservation == Held(stores, id)
      && (failure.None? <==> after.record.state.Terminal?)
  {
    hide Inv, Sound, Act, FinishReservation, AtCredit, Reconciled, LedgerAccepts, Applied, Run;
    var step := Step(pid, input);
    var third := Act(Act(Act(c, Action.Sweep(pid)), step), step);
    SettlingFacts(c);
    RunSix(c, Action.Sweep(pid), step);
    SweepReachesCredit(c, pid, input);
    SweepKeepsRecord(c, pid, input);
    StoresOutcome(s, c.record, a);
    EndsTerminal(c.record);
    if c.record.settlement.value.event.Some? {
      CreditOutcome(Act(third, step), pid, input);
    } else {
      CreditOutcome(third, pid, input);
      AbsentStep(Act(Act(third, step), step), pid, input);
    }
  }

  lemma EndsTerminal(r: AdmissionRecord)
    requires Sound(r) && r.state.Settling?
    ensures r.settlement.Some? && Applied(r, Finish(r.settlement.value.outcome, r.token)).state.Terminal?
  {
    PreparedHasOwner(r);
  }

  /** The steps up to the budget call leave the ticket alone. */
  lemma SweepKeepsRecord(c: Cell, pid: nat, input: Input)
    requires Reachable(c) && c.record.state.Settling? && pid !in c.processes && input.ok
    ensures var step := Step(pid, input);
      var third := Act(Act(Act(c, Action.Sweep(pid)), step), step);
      if c.record.settlement.Some? && c.record.settlement.value.event.Some?
      then Act(third, step).record == c.record
      else third.record == c.record
  {
    hide Inv, Sound, FinishReservation, ReservationFacts, ValidIntent, Transact;
    SettlingFacts(c);
  }
}
