/**
 * The ticket's state diagram, arrow by arrow: which transaction enters each state, from where, under which
 * conditions, and what it writes. Every statement ranges over all transactions.
 */
module TicketDiagram {
  import opened Wrappers
  import opened Usage
  import opened Jobs
  import opened AdmissionState

  const FRESH_SCHEDULE := Schedule(false, false, 0.0, 0.0)

  /** The transaction moves the ticket into a state it was not in. */
  predicate Enters(r: AdmissionRecord, t: Transition, state: TicketState) {
    r.state != state && Applied(r, t).state == state
  }

  /** A claim that may act on the ticket: queued work, and no other envelope expected. */
  predicate Claimable(r: AdmissionRecord, t: Transition) {
    && t.Claim? && t.now >= 0.0 && TechnicalId(t.token)
    && Queued(r.state) && (t.expected.None? || t.expected.value == r.envelope)
  }

  /** Execution starts exactly by a claim of due work in time, for the stage the work is in. */
  lemma RunningIsEnteredExactly(r: AdmissionRecord, t: Transition)
    requires Sound(r)
    ensures Enters(r, t, Running) <==>
      Claimable(r, t) && t.stage == r.stage && r.schedule.notBefore <= t.now < r.envelope.deadline
    ensures Enters(r, t, Running) ==>
      Applied(r, t) == r.(state := Running, token := t.token, attempt := r.attempt + 1)
  {
    hide ValidRecord, ValidIntent, ValidEnvelope;
  }

  /** Work waits exactly when its owner defers unreserved work to a time in its lifetime. */
  lemma WaitingIsEnteredExactly(r: AdmissionRecord, t: Transition)
    requires Sound(r)
    ensures Enters(r, t, Waiting) <==>
      && t.Defer? && r.state.Running? && t.token == r.token && !r.budgetReserved
      && r.envelope.acceptedAt <= t.notBefore < r.envelope.deadline
    ensures Enters(r, t, Waiting) ==>
      Applied(r, t) == r.(
        state := Waiting, token := "", schedule := FRESH_SCHEDULE.(notBefore := t.notBefore),
        notices := r.notices.(delayedRequested := true))
  {
    hide ValidRecord, ValidIntent, ValidEnvelope;
  }

  /** Work is accepted again exactly when its owner hands media work to the browser. */
  lemma AcceptedIsEnteredExactly(r: AdmissionRecord, t: Transition)
    requires Sound(r)
    ensures Enters(r, t, Accepted) <==>
      t.Handoff? && r.state.Running? && t.token == r.token && r.stage.Media? && t.stage.Browser?
    ensures Enters(r, t, Accepted) ==>
      Applied(r, t) == r.(state := Accepted, stage := Browser, token := "", schedule := FRESH_SCHEDULE)
  {
    hide ValidRecord, ValidIntent, ValidEnvelope;
  }

  /** The broker's receipt is noted exactly on accepted work of the stage and attempt it was sent for. */
  lemma EnqueuedIsEnteredExactly(r: AdmissionRecord, t: Transition)
    requires Sound(r)
    ensures Enters(r, t, Enqueued) <==>
      t.MarkEnqueued? && r.state.Accepted? && t.stage == r.stage && t.attempt == r.attempt
    ensures Enters(r, t, Enqueued) ==> Applied(r, t) == r.(state := Enqueued)
  {
    hide ValidRecord, ValidIntent, ValidEnvelope;
  }

  /** A running job is asked to stop exactly by a cancellation. */
  lemma CancellingIsEnteredExactly(r: AdmissionRecord, t: Transition)
    requires Sound(r)
    ensures Enters(r, t, Cancelling) <==> t.Cancel? && r.state.Running?
    ensures Enters(r, t, Cancelling) ==> Applied(r, t) == r.(state := Cancelling)
  {
    hide ValidRecord, ValidIntent, ValidEnvelope;
  }

  /** The delivery fence is crossed exactly by the owner of running work, before the deadline. */
  lemma UncertainIsEnteredExactly(r: AdmissionRecord, t: Transition)
    requires Sound(r)
    ensures Enters(r, t, DeliveryUncertain) <==>
      t.BeginDelivery? && r.state.Running? && t.token == r.token && 0.0 <= t.now < r.envelope.deadline
    ensures Enters(r, t, DeliveryUncertain) ==> Applied(r, t) == r.(state := DeliveryUncertain)
  {
    hide ValidIntent, ValidEnvelope;
  }

  /** Queued work is ended from outside: cancelled, or found by a claim at or past its deadline. */
  function QueuedEnding(r: AdmissionRecord, t: Transition): Option<JobOutcome> {
    if t.Cancel? && Queued(r.state) then Some(Cancelled)
    else if Claimable(r, t) && t.now >= r.envelope.deadline then Some(Expired)
    else None
  }

  /** A settlement is prepared exactly by the owner with a fitting intent, or for reserved queued work that ends. */
  lemma SettlingIsEnteredExactly(r: AdmissionRecord, t: Transition)
    requires Sound(r)
    ensures Enters(r, t, Settling) <==>
      || (&& t.Prepare? && (r.state.Running? || r.state.Cancelling? || r.state.DeliveryUncertain?)
          && t.token == r.token && SettlementFits(t.intent, r.envelope, r.budgetReserved))
      || (QueuedEnding(r, t).Some? && r.budgetReserved)
    ensures Enters(r, t, Settling) ==>
      Applied(r, t) ==
        if t.Prepare? then r.(state := Settling, settlement := Some(t.intent))
        else r.(state := Settling, token := RECOVERY_TOKEN, settlement := Some(ZeroIntent(QueuedEnding(r, t).value)))
  {
    hide ValidIntent, ValidEnvelope, ReceiptBound;
  }

  /**
   * A ticket ends exactly by its owner finishing it with the prepared outcome or, unreserved, with any; or,
   * queued and unreserved, by whoever presents no token, by a cancellation, or past its deadline.
   */
  lemma TerminalIsEnteredExactly(r: AdmissionRecord, t: Transition)
    requires Sound(r)
    ensures Enters(r, t, Terminal) <==>
      || (&& t.Finish? && !r.state.DeliveryUncertain? && !r.state.Terminal? && t.token == r.token
          && (if r.state.Settling? then r.settlement.value.outcome == t.outcome else !r.budgetReserved))
      || (QueuedEnding(r, t).Some? && !r.budgetReserved)
    ensures Enters(r, t, Terminal) ==>
      Applied(r, t) == r.(
        state := Terminal, outcome := Some(if t.Finish? then t.outcome else QueuedEnding(r, t).value),
        notices := r.notices.(terminalRequested := true))
  {
    hide ValidIntent, ValidEnvelope, SettlementFits;
  }

  // ----- Transactions that stay in a state -----

  /** The publication of this very stage and attempt. */
  predicate Current(r: AdmissionRecord, stage: JobStage, attempt: int) {
    r.stage == stage && r.attempt == attempt
  }

  predicate MayRepublish(r: AdmissionRecord, stage: JobStage, attempt: int, now: real) {
    && Queued(r.state) && Current(r, stage, attempt)
    && 0.0 <= now && r.schedule.notBefore <= now && r.schedule.retryAt <= now < r.envelope.deadline
  }

  predicate MayRegister(r: AdmissionRecord, envelope: JobEnvelope, notBefore: real) {
    && r.envelope == envelope && 0.0 <= notBefore < envelope.deadline
    && r.state.Accepted? && !r.schedule.published && !r.schedule.registered
  }

  /** A feedback message is due: asked for and not yet claimed, or a failure nobody was told of. */
  predicate NoticeDue(r: AdmissionRecord, notice: NoticeKind) {
    match notice
    case DelayedNotice => r.state.Waiting? && r.notices.delayedRequested && !r.notices.delayedClaimed
    case TerminalNotice => r.state.Terminal? && r.notices.terminalRequested && !r.notices.terminalClaimed
    case FailureNotice =>
      && !r.notices.failureClaimed && !r.notices.terminalClaimed
      && (Queued(r.state) || r.state.Running?
          || (r.state.Terminal? && r.outcome != Some(Complete) && r.outcome != Some(Cancelled)))
  }

  function Claimed(notices: Notices, notice: NoticeKind): Notices {
    match notice
    case DelayedNotice => notices.(delayedClaimed := true)
    case TerminalNotice => notices.(terminalClaimed := true)
    case FailureNotice => notices.(failureClaimed := true)
  }

  /** What a transaction writes that leaves the state as it is. */
  lemma StayingWritesExactly(r: AdmissionRecord, t: Transition)
    requires Sound(r) && Applied(r, t).state == r.state
    ensures Applied(r, t) ==
      if t.Republish? && MayRepublish(r, t.stage, t.attempt, t.now) then
        r.(schedule := r.schedule.(retryAt := t.now + RECOVERY_RETRY_SECONDS))
      else if t.Register? && MayRegister(r, t.envelope, t.notBefore) then
        r.(schedule := r.schedule.(notBefore := t.notBefore, registered := true))
      else if t.AckPublication? && !r.state.Terminal? && Current(r, t.stage, t.attempt) then
        r.(schedule := r.schedule.(published := true))
      else if t.MarkReserved? && (r.state.Running? || r.state.Cancelling?) && t.token == r.token then
        r.(budgetReserved := true)
      else if t.ClaimNotice? && NoticeDue(r, t.notice) then r.(notices := Claimed(r.notices, t.notice))
      else r
  {
    hide ValidIntent, ValidEnvelope, SettlementFits;
  }

  // ----- Answers -----

  /** Nothing is written, because everything was written before. */
  predicate Replays(r: AdmissionRecord, t: Transition) {
    || (t.Finish? && r.outcome == Some(t.outcome) && (t.token == "" || t.token == r.token))
    || (t.Prepare? && r.state.Settling? && t.token == r.token && r.settlement == Some(t.intent))
  }

  /** The transaction writes within the state the ticket is in, and its caller is told so. */
  predicate WritesInPlace(r: AdmissionRecord, t: Transition) {
    || (t.Republish? && MayRepublish(r, t.stage, t.attempt, t.now))
    || (t.AckPublication? && !r.state.Terminal? && Current(r, t.stage, t.attempt))
    || (t.MarkReserved? && (r.state.Running? || r.state.Cancelling?) && t.token == r.token)
    || (t.ClaimNotice? && NoticeDue(r, t.notice))
  }

  /** The caller is told of success exactly when the ticket changed state, was written in place, or replayed. */
  lemma SucceedsExactly(r: AdmissionRecord, t: Transition)
    requires Sound(r)
    ensures Transact(r, t).Change? && Transact(r, t).success <==>
      (Applied(r, t).state != r.state && !t.MarkEnqueued?) || WritesInPlace(r, t) || Replays(r, t)
    ensures Transact(r, t).Change? && Transact(r, t).record.Some? ==> Transact(r, t).record.value == Applied(r, t)
  {
    hide ValidIntent, ValidEnvelope, ReceiptBound;
  }

  /** Transactions that act for an owner, or for the one who would become it, report no ticket when refused. */
  lemma RefusesExactly(r: AdmissionRecord, t: Transition)
    requires Sound(r)
    ensures Transact(r, t).Change? && Transact(r, t).record.None? <==>
      && (t.Claim? || Actor(t) != "" || t.Handoff? || t.Finish? || t.MarkReserved? || t.Defer? || t.Prepare?)
      && Transact(r, t).Change? && !Transact(r, t).success
  {
    hide ValidIntent, ValidEnvelope, SettlementFits;
  }

  /** Conflicts and malformed requests raise, exactly here. */
  lemma RaisesExactly(r: AdmissionRecord, t: Transition)
    requires Sound(r)
    ensures Transact(r, t).Raised? <==>
      || !ValidRequest(t)
      || (t.Register? && t.envelope != r.envelope)
      || (t.Handoff? && r.state.Running? && !(t.token == r.token && r.stage.Media? && t.stage.Browser?))
      || (t.Defer? && r.state.Running? && t.token == r.token && !r.budgetReserved
          && !(r.envelope.acceptedAt <= t.notBefore < r.envelope.deadline))
      || (t.Finish? && r.state.Settling? && t.outcome != r.settlement.value.outcome)
      || (t.Finish? && r.state.Terminal? && (t.token == "" || t.token == r.token) && r.outcome != Some(t.outcome))
      || (t.Prepare? && r.state.Settling? && t.token == r.token && r.settlement != Some(t.intent))
      || (t.Prepare? && (r.state.Running? || r.state.Cancelling? || r.state.DeliveryUncertain?)
          && t.token == r.token && !SettlementFits(t.intent, r.envelope, r.budgetReserved))
  {
    hide ValidIntent, ValidEnvelope, ReceiptBound;
  }

  /** The first message is due exactly for accepted work nobody has published; only the first asker registers it. */
  lemma FirstPublicationIsDueExactly(r: AdmissionRecord, t: Transition)
    requires Sound(r)
    ensures Transact(r, t).Change? && Transact(r, t).shouldPublish <==>
      && t.Register? && t.envelope == r.envelope && 0.0 <= t.notBefore < r.envelope.deadline
      && r.state.Accepted? && !r.schedule.published
    ensures Transact(r, t).Change? && Transact(r, t).publication.FirstEnqueue? <==>
      t.Register? && MayRegister(r, t.envelope, t.notBefore)
  {
    hide ValidRecord, ValidIntent, ValidEnvelope;
  }

  // ----- Over runs: each notice once -----

  /** How often a run grants this feedback message. */
  function NoticesGranted(r: AdmissionRecord, ts: seq<Transition>, notice: NoticeKind): nat
    decreases |ts|
  {
    if ts == [] then 0
    else
      (if ts[0] == ClaimNotice(notice) && Transact(r, ts[0]).Change? && Transact(r, ts[0]).success then 1 else 0)
      + NoticesGranted(Applied(r, ts[0]), ts[1..], notice)
  }

  predicate NoticeTaken(r: AdmissionRecord, notice: NoticeKind) {
    match notice
    case DelayedNotice => r.notices.delayedClaimed
    case TerminalNotice => r.notices.terminalClaimed
    case FailureNotice => r.notices.failureClaimed
  }

  lemma {:induction false} NoticeStep(r: AdmissionRecord, t: Transition, notice: NoticeKind)
    requires Sound(r)
    ensures NoticeTaken(r, notice) ==> NoticeTaken(Applied(r, t), notice)
    ensures t == ClaimNotice(notice) && Transact(r, t).Change? && Transact(r, t).success ==>
      !NoticeTaken(r, notice) && NoticeTaken(Applied(r, t), notice)
  {
    hide ValidIntent, ValidEnvelope, SettlementFits;
  }

  /** Over any run each feedback message is granted at most once, and never again once it was. */
  lemma {:induction false} NoticesAreGrantedOnce(r: AdmissionRecord, ts: seq<Transition>, notice: NoticeKind)
    requires Sound(r)
    ensures NoticesGranted(r, ts, notice)
      == if !NoticeTaken(r, notice) && NoticeTaken(RunTransitions(r, ts), notice) then 1 else 0
    ensures NoticeTaken(r, notice) ==> NoticeTaken(RunTransitions(r, ts), notice)
    decreases |ts|
  {
    hide Sound, Transact, Applied, NoticeTaken;
    if ts != [] {
      NoticeStep(r, ts[0], notice);
      if !NoticeTaken(r, notice) && NoticeTaken(Applied(r, ts[0]), notice) { NoticeIsTakenByGrant(r, ts[0], notice); }
      TransitionKeepsRecordReadable(r, ts[0]);
      NoticesAreGrantedOnce(Applied(r, ts[0]), ts[1..], notice);
    }
  }

  lemma {:induction false} NoticeIsTakenByGrant(r: AdmissionRecord, t: Transition, notice: NoticeKind)
    requires Sound(r) && !NoticeTaken(r, notice) && NoticeTaken(Applied(r, t), notice)
    ensures t == ClaimNotice(notice) && Transact(r, t).Change? && Transact(r, t).success
  {
    hide ValidIntent, ValidEnvelope, SettlementFits;
  }

  // ----- Over runs: publishing again -----

  /** A granted republication: the stage and attempt it is for, and when. */
  datatype Allowance = Allowance(stage: JobStage, attempt: int, now: real)

  function Allowed(r: AdmissionRecord, t: Transition): seq<Allowance> {
    if t.Republish? && Transact(r, t).Change? && Transact(r, t).success
    then [Allowance(t.stage, t.attempt, t.now)] else []
  }

  function Allowances(r: AdmissionRecord, ts: seq<Transition>): seq<Allowance>
    decreases |ts|
  {
    if ts == [] then [] else Allowances(r, ts[..|ts| - 1]) + Allowed(RunTransitions(r, ts[..|ts| - 1]), ts[|ts| - 1])
  }

  /** An earlier allowance lies behind the ticket: for an earlier attempt, or five seconds before the next one. */
  predicate Behind(a: Allowance, r: AdmissionRecord) {
    && a.attempt <= r.attempt
    && (Current(r, a.stage, a.attempt) ==>
          !LiveExecution(r.state) && (Queued(r.state) ==> a.now + RECOVERY_RETRY_SECONDS <= r.schedule.retryAt))
    && (a.attempt == r.attempt && r.stage.Media? ==> a.stage.Media?)
    && (a.attempt == r.attempt ==> !LiveExecution(r.state))
  }

  predicate LiveExecution(state: TicketState) {
    state.Running? || state.Cancelling? || state.DeliveryUncertain?
  }

  lemma {:induction false} StaysBehind(a: Allowance, r: AdmissionRecord, t: Transition)
    requires Sound(r) && Behind(a, r)
    ensures Behind(a, Applied(r, t))
  {
    hide ValidIntent, ValidEnvelope, SettlementFits;
  }

  lemma {:induction false} AllowanceIsBehind(r: AdmissionRecord, t: Transition)
    requires Sound(r) && Allowed(r, t) != []
    ensures Behind(Allowed(r, t)[0], Applied(r, t))
    ensures forall a: Allowance ::
      Behind(a, r) && a.stage == t.stage && a.attempt == t.attempt ==> a.now + RECOVERY_RETRY_SECONDS <= t.now
  {
    hide ValidIntent, ValidEnvelope, SettlementFits;
  }

  lemma AllowedIsForItself(r: AdmissionRecord, t: Transition)
    ensures Allowed(r, t) == [] || (t.Republish? && Allowed(r, t) == [Allowance(t.stage, t.attempt, t.now)])
  {
  }

  lemma {:induction false} RunSnoc(r: AdmissionRecord, ts: seq<Transition>, t: Transition)
    ensures RunTransitions(r, ts + [t]) == Applied(RunTransitions(r, ts), t)
    decreases |ts|
  {
    hide Applied;
    if ts == [] {
      assert [t][1..] == [] && [] + [t] == [t];
      assert RunTransitions(r, [t]) == RunTransitions(Applied(r, t), []);
    } else {
      assert (ts + [t])[1..] == ts[1..] + [t];
      RunSnoc(Applied(r, ts[0]), ts[1..], t);
    }
  }

  predicate AllBehind(allowances: seq<Allowance>, r: AdmissionRecord) {
    forall i :: 0 <= i < |allowances| ==> Behind(allowances[i], r)
  }

  predicate SameAttempt(a: Allowance, b: Allowance) {
    a.stage == b.stage && a.attempt == b.attempt
  }

  predicate Spaced(allowances: seq<Allowance>) {
    forall i, j :: 0 <= i < j < |allowances| && SameAttempt(allowances[i], allowances[j]) ==>
      allowances[i].now + RECOVERY_RETRY_SECONDS <= allowances[j].now
  }

  /** Over any run the message of one stage and attempt is allowed again only five seconds after the last time. */
  lemma {:induction false} RepublicationsAreSpaced(r: AdmissionRecord, ts: seq<Transition>)
    requires Sound(r)
    ensures AllBehind(Allowances(r, ts), RunTransitions(r, ts)) && Spaced(Allowances(r, ts))
    decreases |ts|
  {
    hide Sound, Behind, Applied, Transact;
    if ts != [] {
      var before := ts[..|ts| - 1];
      var t := ts[|ts| - 1];
      assert ts == before + [t];
      RepublicationsAreSpaced(r, before);
      RunEvolves(r, before);
      RunSnoc(r, before, t);
      var now := RunTransitions(r, before);
      var earlier := Allowances(r, before);
      forall i | 0 <= i < |earlier| ensures Behind(earlier[i], Applied(now, t)) {
        StaysBehind(earlier[i], now, t);
      }
      AllowedIsForItself(now, t);
      if Allowed(now, t) != [] { AllowanceIsBehind(now, t); }
    }
  }

  // ----- Over runs: the index of accepted work -----

  /** Whether the ticket is in the store's index of accepted work after a run; admission puts it there. */
  function Listed(r: AdmissionRecord, ts: seq<Transition>, listed: bool): bool
    decreases |ts|
  {
    if ts == [] then listed
    else
      var change := Transact(r, ts[0]);
      var mark := if change.Change? && change.write && change.record.Some? then change.handoff else None;
      Listed(Stored(r, change), ts[1..], if mark.Some? then mark.value else listed)
  }

  lemma {:induction false} MarkFollowsState(r: AdmissionRecord, t: Transition)
    requires Sound(r)
    ensures var change := Transact(r, t); var after := Applied(r, t);
      && (change.Change? && change.write && change.record.Some? && change.handoff.Some? ==>
            change.handoff.value == after.state.Accepted?)
      && (change.Raised? || !change.write || change.record.None? || change.handoff.None? ==>
            after.state.Accepted? == r.state.Accepted?)
  {
    hide ValidIntent, ValidEnvelope, SettlementFits;
  }

  /** Over any run the index of accepted work holds a ticket exactly while it is accepted. */
  lemma {:induction false} IndexHoldsAccepted(r: AdmissionRecord, ts: seq<Transition>)
    requires Sound(r)
    ensures Listed(r, ts, r.state.Accepted?) == RunTransitions(r, ts).state.Accepted?
    decreases |ts|
  {
    hide Sound, Transact;
    if ts != [] {
      MarkFollowsState(r, ts[0]);
      TransitionKeepsRecordReadable(r, ts[0]);
      IndexHoldsAccepted(Applied(r, ts[0]), ts[1..]);
    }
  }
}
