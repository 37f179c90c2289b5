/**
 * The counters behind one job's reservation: settling and reclaiming a share is settling and reclaiming
 * the reservation the protocol sees, and counters that never verify strand the job's settlement.
 */
module QuotaStranding {
  import opened Wrappers
  import opened Usage
  import opened Jobs
  import opened AdmissionState
  import opened Budgets
  import opened QuotaCounters
  import opened SettlementProtocol
  import opened JobGuarantees
  import opened LifecycleRefinement
  import opened JobExecution

  /** The reservation record of a share. */
  function ReservationOf(share: Share, deadline: real): Reservation {
    Reservation(share.state, deadline, share.estimates, if Settled(share.state) then Some(share.actual) else None)
  }

  predicate StoredState(state: ReservationState) {
    state.Reserved? || state.Committed? || state.Credited? || state.ReservationExpired?
  }

  /** What the budgets answer as verified when they settle a share. */
  predicate CountersVerify(s: Counters, i: nat, actual: seq<UnitAmount>)
    requires i < |s.shares|
  {
    QuotaCounters.Verified(s, s.shares[i]) && Countable(s, s.shares[i], Amounts(actual))
  }

  lemma {:induction false} AmountsOf(actual: seq<UnitAmount>)
    requires forall i :: 0 <= i < |actual| ==> actual[i].amount >= 0
    ensures forall unit :: unit in Amounts(actual) ==> Amounts(actual)[unit] >= 0
    ensures DistinctUnits(actual) ==>
      (AnyConsumed(actual) <==> AnyNonzero(Amounts(actual)))
    ensures forall unit :: unit in Amounts(actual) <==> exists i :: 0 <= i < |actual| && actual[i].unit == unit
  {
    if actual != [] {
      var last := |actual| - 1;
      var shorter := actual[..last];
      AmountsOf(shorter);
      forall unit ensures unit in Amounts(actual) <==> exists i :: 0 <= i < |actual| && actual[i].unit == unit {
        if unit in Amounts(shorter) {
          var i :| 0 <= i < last && shorter[i].unit == unit;
          assert actual[i].unit == unit;
        }
        if i :| 0 <= i < |actual| && actual[i].unit == unit {
          if i < last { assert shorter[i].unit == unit; }
        }
      }
      if DistinctUnits(actual) {
        assert forall i :: 0 <= i < last ==> shorter[i].unit != actual[last].unit;
        NonzeroUpdate(Amounts(shorter), actual[last].unit, actual[last].amount);
        ConsumedSnoc(actual);
      }
    }
  }

  lemma NonzeroUpdate(m: map<UsageUnit, int>, unit: UsageUnit, amount: int)
    requires unit !in m
    ensures AnyNonzero(m[unit := amount]) <==> AnyNonzero(m) || amount != 0
  {
    var updated := m[unit := amount];
    if AnyNonzero(m) {
      var other :| other in m && m[other] != 0;
      assert other in updated && updated[other] != 0;
    }
    if amount != 0 { assert unit in updated && updated[unit] != 0; }
  }

  lemma ConsumedSnoc(actual: seq<UnitAmount>)
    requires actual != []
    ensures AnyConsumed(actual) <==> AnyConsumed(actual[..|actual| - 1]) || actual[|actual| - 1].amount != 0
  {
    var shorter := actual[..|actual| - 1];
    if AnyConsumed(shorter) {
      var i :| 0 <= i < |shorter| && shorter[i].amount != 0;
      assert actual[i].amount != 0;
    }
    if i :| 0 <= i < |actual| && actual[i].amount != 0 {
      if i < |shorter| { assert shorter[i].amount != 0; }
    }
  }

  /** Settling a share against its counters is settling its reservation with that verification answer. */
  lemma FinishRefines(s: Counters, i: nat, actual: seq<UnitAmount>, now: real, deadline: real)
    requires i < |s.shares| && ValidShare(s.shares[i]) && StoredState(s.shares[i].state)
    requires actual != [] && DistinctUnits(actual) && now >= 0.0
    requires forall k :: 0 <= k < |actual| ==> ValidAmount(actual[k])
    ensures FinishReservation(
        Some(ReservationOf(s.shares[i], deadline)), actual, now, CountersVerify(s, i, actual)).1
      == Some(ReservationOf(QuotaCounters.Finish(s, i, Amounts(actual), now).shares[i], deadline))
  {
    hide ValidShare, QuotaCounters.Verified, Countable, CloseWindows, Refund, WriteCaps, QuotaCounters.Leave, Amounts;
    AmountsOf(actual);
  }

  /** Reclaiming a share long past its deadline is reclaiming its reservation. */
  lemma ExpireRefines(s: Counters, i: nat, now: real, deadline: real)
    requires i < |s.shares| && ValidShare(s.shares[i]) && StoredState(s.shares[i].state)
    requires deadline <= now - STALE_RESERVATION_GRACE_SECONDS
    ensures ExpireStale(Some(ReservationOf(s.shares[i], deadline)), now)
      == Some(ReservationOf(QuotaCounters.Expire(s, i, now).shares[i], deadline))
  {
    hide ValidShare, CloseWindows, Refund, WriteCaps, QuotaCounters.Leave;
  }

  /** A sweep whose budget check is inconclusive leaves ticket and reservation as they were. */
  lemma UnverifiedSweep(c: Cell, pid: nat, input: Input)
    requires Reachable(c) && c.record.state.Settling? && pid !in c.processes
    requires input.ok && !input.verified && c.reservation.Some? && c.reservation.value.state.Reserved?
    ensures var after := SettlementProtocol.Run(c, AnsweredSweep(pid, input));
      && after.record == c.record && after.reservation == c.reservation && Reachable(after)
      && pid !in after.processes
  {
    hide SettlementProtocol.Inv, Sound, SettlementProtocol.Act, AtCredit, SettlementProtocol.Run;
    var step := Step(pid, input);
    var third := SettlementProtocol.Act(SettlementProtocol.Act(SettlementProtocol.Act(c, Sweep(pid)), step), step);
    RunsStayReachable(c, AnsweredSweep(pid, input));
    SettlingFacts(c);
    RunSix(c, Sweep(pid), step);
    SweepReachesCredit(c, pid, input);
    SweepKeepsRecord(c, pid, input);
    InconclusiveBudget(c.reservation, c.record.settlement.value.actual, input.now);
    if c.record.settlement.value.event.Some? {
      CreditOutcome(SettlementProtocol.Act(third, step), pid, input);
    } else {
      CreditOutcome(third, pid, input);
      AbsentStep(SettlementProtocol.Act(SettlementProtocol.Act(third, step), step), pid, input);
    }
  }

  lemma InconclusiveBudget(held: Option<Reservation>, actual: seq<UnitAmount>, now: real)
    requires held.Some? && held.value.state.Reserved?
    ensures var (answer, after) := FinishReservation(held, actual, now, false);
      after == held && !(answer.Success? && Settled(answer.value))
  {
    hide Amounts, WithinEstimates, DistinctUnits;
  }

  /** Any number of sweeps of one ticket, each on its own answers. */
  function Sweeps(c: Cell, pid: nat, inputs: seq<Input>): Cell
    decreases |inputs|
  {
    if inputs == [] then c else Sweeps(SettlementProtocol.Run(c, AnsweredSweep(pid, inputs[0])), pid, inputs[1..])
  }

  lemma {:induction false} UnverifiedSweeps(c: Cell, pid: nat, inputs: seq<Input>)
    requires Reachable(c) && c.record.state.Settling? && pid !in c.processes
    requires c.reservation.Some? && c.reservation.value.state.Reserved?
    requires forall k :: 0 <= k < |inputs| ==> inputs[k].ok && !inputs[k].verified
    ensures var after := Sweeps(c, pid, inputs);
      after.record == c.record && after.reservation == c.reservation && Reachable(after)
    decreases |inputs|
  {
    hide Reachable, SettlementProtocol.Run;
    if inputs != [] {
      UnverifiedSweep(c, pid, inputs[0]);
      UnverifiedSweeps(SettlementProtocol.Run(c, AnsweredSweep(pid, inputs[0])), pid, inputs[1..]);
    }
  }

  /** A sweep whose every call answers, its budget call from these counters. */
  predicate AnsweredBy(s: Counters, i: nat, actual: seq<UnitAmount>, input: Input) {
    i < |s.shares| && input.ok && input.verified == CountersVerify(s, i, actual)
  }

  /** Share i is open, with one of its buckets holding more than its own burst. */
  predicate Overfull(s: Counters, i: nat) {
    i < |s.shares| && s.shares[i].state.Reserved? && !WithinOwnBurst(s, s.shares[i])
  }

  /**
   * From a raised burst to a stranded job: while a bucket holds more than the reservation's own burst, any
   * number of sweeps whose every call answers, whatever the counters do between them, leave the settlement
   * waiting; and once the reservation is reclaimed past its grace nothing ever finishes the job or gives
   * back its capacity.
   */
  lemma {:induction false} OverfullBucketStrandsSettlement(
    limits: map<string, int>, runs: seq<seq<QuotaCounters.Action>>, i: nat,
    c: Cell, pid: nat, inputs: seq<Input>, now: real, more: seq<SettlementProtocol.Action>)
    requires |runs| == |inputs|
    requires forall k :: 0 <= k < |runs| ==> AllUnderLimits(limits, runs[k]) && Overfull(After(limits, runs[k]), i)
    requires Reachable(c) && c.record.state.Settling? && c.record.settlement.Some? && pid !in c.processes
    requires c.reservation.Some? && c.reservation.value.state.Reserved?
    requires c.reservation.value.deadline <= now - STALE_RESERVATION_GRACE_SECONDS
    requires forall k :: 0 <= k < |inputs| ==>
      AnsweredBy(After(limits, runs[k]), i, c.record.settlement.value.actual, inputs[k])
    ensures var swept := Sweeps(c, pid, inputs);
      var after := SettlementProtocol.Run(SettlementProtocol.Act(swept, ExpireStaleReservation(now)), more);
      && swept.record == c.record && swept.reservation == c.reservation
      && after.record.state.Settling? && after.history.releases == 0
  {
    hide Reachable, SettlementProtocol.Act, SettlementProtocol.Run, After, Countable, Amounts, WithinOwnBurst;
    hide QuotaCounters.Verified;
    forall k | 0 <= k < |inputs| ensures !inputs[k].verified {
      assert Overfull(After(limits, runs[k]), i);
      OpenReservationVerifiesExactly(limits, runs[k], i);
    }
    UnverifiedSweeps(c, pid, inputs);
    LateReclaimStrands(Sweeps(c, pid, inputs), now, more);
  }

  // ----- A job that gets there -----

  /** One process's steps on these answers, followed by one last action. */
  function StepsThen(pid: nat, inputs: seq<Input>, last: SettlementProtocol.Action): seq<SettlementProtocol.Action> {
    if inputs == [] then [last] else [Step(pid, inputs[0])] + StepsThen(pid, inputs[1..], last)
  }

  lemma {:induction false} RunsStepsThen(c: Cell, pid: nat, inputs: seq<Input>, last: SettlementProtocol.Action)
    ensures SettlementProtocol.Run(c, StepsThen(pid, inputs, last))
      == SettlementProtocol.Act(VariedSteps(c, pid, inputs), last)
    decreases |inputs|
  {
    hide SettlementProtocol.Act, SettlementProtocol.Run;
    if inputs == [] {
      RunOne(c, last);
    } else {
      RunCons(c, Step(pid, inputs[0]), StepsThen(pid, inputs[1..], last));
      RunsStepsThen(SettlementProtocol.Act(c, Step(pid, inputs[0])), pid, inputs[1..], last);
    }
  }

  /** An execution whose extraction asks for the browser; the queued browser work is then cancelled. */
  function HandOver(now: real): (inputs: seq<Input>)
    ensures |inputs| == 15
  {
    seq(15, _ => Input(true, now, PayloadReady, Granted, NeedsBrowser, true, true, DeliveryUnknown, [], true))
  }

  function HandOverThenCancel(c: Cell, pid: nat, token: string): seq<SettlementProtocol.Action> {
    var now := c.record.envelope.acceptedAt;
    [Receive(pid, c.record.envelope, Media, now, token)] + StepsThen(pid, HandOver(now), Outside(Cancel))
  }

  lemma CancelledSettles(c: Cell)
    requires ReadyForBrowser(c)
    ensures var after := SettlementProtocol.Act(c, Outside(Cancel));
      && after.record.state.Settling? && after.record.settlement == Some(ZeroIntent(Cancelled))
      && after.reservation == c.reservation && after.processes == c.processes
      && after.record.envelope == c.record.envelope
  {
    hide Sound, EmergencyFacts;
  }

  lemma InitialFacts(c: Cell)
    requires Initial(c)
    ensures Reachable(c)
    ensures 0.0 <= c.record.envelope.acceptedAt < c.record.envelope.deadline
  {
    InitialHolds(c);
  }

  /** Every fresh job whose feature is still on has a run to a waiting settlement at zero with its reservation open. */
  lemma {:induction false} FreshJobCanWait(c: Cell, pid: nat, token: string)
    requires Initial(c) && TechnicalId(token) && |c.emergency| == c.stamped + 1
    ensures var after := SettlementProtocol.Run(c, HandOverThenCancel(c, pid, token));
      && Reachable(after) && pid !in after.processes && after.record.envelope == c.record.envelope
      && after.record.state.Settling? && after.record.settlement == Some(ZeroIntent(Cancelled))
      && after.reservation == Some(Reservation(Reserved, c.record.envelope.deadline, map[Requests := 1], None))
  {
    var now := c.record.envelope.acceptedAt;
    var inputs := HandOver(now);
    var claim := Receive(pid, c.record.envelope, Media, now, token);
    InitialFacts(c);
    InitialIsMedia(c);
    hide Initial, Reachable, SettlementProtocol.Act, SettlementProtocol.Run, VariedSteps, Sound, EmergencyFacts;
    var handed := VariedSteps(SettlementProtocol.Act(c, claim), pid, inputs);
    ExecutionFollowsTheTable(c, pid, token, now, inputs);
    assert VerdictOf(c, ActedOn(inputs)) == JobExecution.HandedToBrowser;
    CancelledSettles(handed);
    RunCons(c, claim, StepsThen(pid, inputs, Outside(Cancel)));
    RunsStepsThen(SettlementProtocol.Act(c, claim), pid, inputs, Outside(Cancel));
    RunsStayReachable(c, HandOverThenCancel(c, pid, token));
  }

  /** A freshly accepted request of user 7. */
  const SAMPLE_CELL := Cell(
    InitialRecord(SAMPLE_ENVELOPE, 100), None, None, [EmergencyState(false, 0)], 0, map[],
    History(0, 0, 0, 0, None, 0, [], [], [], []))

  lemma SampleCellIsInitial()
    ensures Initial(SAMPLE_CELL) && TechnicalId("worker-1")
  {
    SampleEnvelopeIsValid();
    hide ValidEnvelope;
  }

  lemma {:induction false} FirstJobWaits(pid: nat)
    ensures var c := SettlementProtocol.Run(SAMPLE_CELL, HandOverThenCancel(SAMPLE_CELL, pid, "worker-1"));
      && Reachable(c) && pid !in c.processes
      && c.record.state.Settling? && c.record.settlement == Some(ZeroIntent(Cancelled))
      && c.reservation == Some(ReservationOf(TWO_RESERVED.shares[0], SAMPLE_ENVELOPE.deadline))
  {
    SampleCellIsInitial();
    assert |SAMPLE_CELL.emergency| == 1 && SAMPLE_CELL.stamped == 0;
    assert SAMPLE_CELL.record.envelope == SAMPLE_ENVELOPE;
    hide Initial, Reachable, SettlementProtocol.Run, HandOverThenCancel;
    FreshJobCanWait(SAMPLE_CELL, pid, "worker-1");
  }

  /**
   * Granting trust between two requests of one minute strands the first job: accepted, handed to the browser
   * and cancelled there, it waits through any number of answered sweeps and for good after the reclaim.
   */
  lemma {:induction false} TrustStrandsFirstJob(
    pid: nat, inputs: seq<Input>, now: real, more: seq<SettlementProtocol.Action>)
    requires forall k :: 0 <= k < |inputs| ==> AnsweredBy(TWO_RESERVED, 0, ZeroIntent(Cancelled).actual, inputs[k])
    requires SAMPLE_ENVELOPE.deadline <= now - STALE_RESERVATION_GRACE_SECONDS
    ensures Initial(SAMPLE_CELL)
    ensures var c := SettlementProtocol.Run(SAMPLE_CELL, HandOverThenCancel(SAMPLE_CELL, pid, "worker-1"));
      var swept := Sweeps(c, pid, inputs);
      var after := SettlementProtocol.Run(SettlementProtocol.Act(swept, ExpireStaleReservation(now)), more);
      && c.record.state.Settling? && c.record.settlement == Some(ZeroIntent(Cancelled))
      && c.reservation == Some(ReservationOf(TWO_RESERVED.shares[0], SAMPLE_ENVELOPE.deadline))
      && swept.record == c.record && swept.reservation == c.reservation
      && after.record.state.Settling? && after.history.releases == 0
  {
    SampleCellIsInitial();
    FirstJobWaits(pid);
    hide Initial, Reachable, SettlementProtocol.Act, SettlementProtocol.Run, HandOverThenCancel;
    hide After, Countable, Amounts, TrustGranted, QuotaCounters.Verified;
    RaisedBurstBlocksSettlement(map[], 0.0);
    OpenReservationVerifiesExactly(TRUST_LIMITS, TrustGranted(), 0);
    OverfullBucketStrandsSettlement(
      TRUST_LIMITS, seq(|inputs|, _ => TrustGranted()), 0,
      SettlementProtocol.Run(SAMPLE_CELL, HandOverThenCancel(SAMPLE_CELL, pid, "worker-1")), pid, inputs, now, more);
  }
}
