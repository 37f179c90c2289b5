/** Work that runs out of time: messages that come too late, and overdue queued work a sweep finds. */
module JobExpiry {
  import opened Wrappers
  import opened Usage
  import opened Jobs
  import opened AdmissionState
  import opened Budgets
  import opened SettlementProtocol
  import opened JobGuarantees
  import opened TicketDiagram

  /**
   * A message at or past its deadline starts nothing. It ends the job as expired exactly when the job is still
   * queued and holds no reservation, and leaves every other ticket to its owner or to recovery.
   */
  lemma {:induction false} LateMessageExpires(
    c: Cell, pid: nat, envelope: JobEnvelope, stage: JobStage, now: real, token: string, input: Input)
    requires Reachable(c) && pid !in c.processes && now >= envelope.deadline && input.ok
    ensures var after := Act(Act(c, Receive(pid, envelope, stage, now, token)), Step(pid, input));
      && pid !in after.processes && after.history.claims == c.history.claims
      && after.reservation == c.reservation && after.receipt == c.receipt
      && after.record
         == (if Queued(c.record.state) && !c.record.budgetReserved
             then c.record.(state := Terminal, outcome := Some(Expired),
                            notices := c.record.notices.(terminalRequested := true))
             else c.record)
  {
    hide Inv, ValidIntent, ValidEnvelope, SettlementFits;
    assert c.processes[pid := Process("", envelope, stage, ExpiringUnclaimed)] - {pid} == c.processes;
  }

  /** A sweep that finds queued work overdue ends it, or prepares its settlement at zero when it holds a reservation. */
  lemma {:induction false} OverdueSweepExpires(c: Cell, pid: nat, first: Input, second: Input)
    requires Reachable(c) && pid !in c.processes && first.ok && second.ok
    requires Queued(c.record.state) && first.now >= c.record.envelope.deadline
    ensures var after := Act(Act(Act(c, Sweep(pid)), Step(pid, first)), Step(pid, second)); var r := c.record;
      && after.reservation == c.reservation && after.receipt == c.receipt
      && pid in after.processes && after.processes[pid].pc.ReadingExpired?
      && after.record
         == (if r.budgetReserved
             then r.(state := Settling, token := RECOVERY_TOKEN, settlement := Some(ZeroIntent(Expired)))
             else r.(state := Terminal, outcome := Some(Expired), notices := r.notices.(terminalRequested := true)))
  {
    SoundTimes(c.record);
    hide Inv, ValidRecord, ValidIntent, ValidEnvelope, SettlementFits;
    assert Act(Act(c, Sweep(pid)), Step(pid, first)).processes[pid].pc == ExpiringQueued(c.record.stage, first.now);
  }

  lemma SoundTimes(r: AdmissionRecord)
    requires Sound(r)
    ensures 0.0 < r.envelope.deadline && (r.budgetReserved ==> r.attempt > 0)
  {
  }

  // ----- The world around the job -----

  /**
   * The environment does just what its actions say: a process may stop, a closed reservation may be dropped, the
   * feature may be switched and then has the next epoch; an open reservation is never dropped.
   */
  lemma EnvironmentTakes(c: Cell, pid: nat, disabled: bool)
    ensures Act(c, Crash(pid)) == c.(processes := c.processes - {pid})
    ensures Act(c, EvictReservation)
      == if c.reservation.None? || c.reservation.value.state.Reserved? then c else c.(reservation := None)
    ensures var after := Act(c, SetEmergency(disabled));
      && after == c.(emergency := after.emergency) && |after.emergency| == |c.emergency| + 1
      && after.emergency[..|c.emergency|] == c.emergency
      && after.emergency[|c.emergency|] == EmergencyState(disabled, |c.emergency|)
  {
  }

  /** Outside the worker only cancelling, enqueueing and feedback touch the ticket, as the store's transactions do. */
  lemma OutsideTakes(c: Cell, t: Transition)
    ensures Act(c, Outside(t)).record
      == if t.Cancel? || t.MarkEnqueued? || t.Register? || t.AckPublication? || t.ClaimNotice?
         then Applied(c.record, t) else c.record
  {
    hide Transact, Stored;
  }
}
