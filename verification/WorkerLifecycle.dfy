/**
 * The worker's settlement service as it runs: one reconciliation touches the usage ledger, the
 * runtime budgets and the admission store in turn, any of the calls may raise, and a sweep takes a
 * page of tickets through it one by one.
 */
module WorkerLifecycle {
  import opened Wrappers
  import opened Usage
  import opened Jobs
  import opened AdmissionState
  import opened Budgets
  import opened UsageLedger

  datatype LifecycleError =
    | CallFailed
    | TicketUnavailable
    | SettlementChanged
    | NotPrepared
    | NotOwner
    | LedgerRefused(refusal: LedgerError)
    | BudgetRefused(reason: BudgetError)
    | BudgetUnverified
    | NotReleased

  /** The three backends and the messages sent to the broker. */
  datatype Stores = Stores(
    tickets: map<string, AdmissionRecord>,
    reservations: map<string, Reservation>,
    ledger: Ledger,
    known: set<AccountingSubject>,
    published: seq<(JobEnvelope, JobStage)>)

  /** Which calls answer while one ticket is handled, and what the clock reads. */
  datatype Answers = Answers(
    admissionReads: bool,
    ledgerAnswers: bool,
    budgetAnswers: bool,
    budgetVerified: bool,
    admissionReleases: bool,
    now: real,
    publishNow: real)

  /** One `expire_stale` pass: the page of reservations it looked at and how many it says it reclaimed. */
  datatype Reclaim = Reclaim(now: real, page: set<string>, count: nat)

  predicate Readable(s: Stores) {
    forall id :: id in s.tickets ==> Sound(s.tickets[id]) && s.tickets[id].envelope.jobId == id
  }

  function Held(s: Stores, id: string): Option<Reservation> {
    if id in s.reservations then Some(s.reservations[id]) else None
  }

  function PutReservation(s: Stores, id: string, held: Option<Reservation>): Stores {
    if held.Some? then s.(reservations := s.reservations[id := held.value]) else s
  }

  function PutTicket(s: Stores, id: string, r: AdmissionRecord): Stores {
    s.(tickets := s.tickets[id := r])
  }

  // ----- Settlement, stage by stage -----

  function LedgerStage(s: Stores, intent: SettlementIntent, a: Answers): (Option<LifecycleError>, Stores) {
    if intent.event.None? then (None, s)
    else if !a.ledgerAnswers || !ValidEvent(intent.event.value) then (Some(CallFailed), s)
    else
      match ApplyBatch(s.ledger, s.known, [intent.event.value])
      case Failure(refusal) => (Some(LedgerRefused(refusal)), s)
      case Success(ledger) => (None, s.(ledger := ledger))
  }

  function BudgetStage(s: Stores, id: string, intent: SettlementIntent, a: Answers): (Option<LifecycleError>, Stores) {
    if intent.actual == [] then (None, s)
    else if !a.budgetAnswers then (Some(CallFailed), s)
    else
      var (answer, held) := FinishReservation(Held(s, id), intent.actual, a.now, a.budgetVerified);
      var after := PutReservation(s, id, held);
      match answer
      case Failure(reason) => (Some(BudgetRefused(reason)), after)
      case Success(state) => (if Settled(state) then None else Some(BudgetUnverified), after)
  }

  function ReleaseStage(s: Stores, id: string, intent: SettlementIntent, token: string, a: Answers)
    : (Option<LifecycleError>, Stores)
  {
    if !a.admissionReleases || id !in s.tickets then (Some(CallFailed), s)
    else
      var change := Transact(s.tickets[id], Finish(intent.outcome, token));
      if change.Raised? then (Some(CallFailed), s)
      else if change.record.None? then (Some(NotReleased), s)
      else (None, PutTicket(s, id, Stored(s.tickets[id], change)))
  }

  function Settlement(s: Stores, id: string, intent: SettlementIntent, token: string, a: Answers)
    : (Option<LifecycleError>, Stores)
  {
    var (refused, recorded) := LedgerStage(s, intent, a);
    if refused.Some? then (refused, recorded)
    else
      var (unsettled, settled) := BudgetStage(recorded, id, intent, a);
      if unsettled.Some? then (unsettled, settled) else ReleaseStage(settled, id, intent, token, a)
  }

  /** What reconciling a ticket snapshot answers and leaves behind. */
  function Reconciled(s: Stores, ticket: AdmissionRecord, a: Answers): (Option<LifecycleError>, Stores) {
    var id := ticket.envelope.jobId;
    if !a.admissionReads then (Some(CallFailed), s)
    else if id !in s.tickets then (Some(TicketUnavailable), s)
    else
      var current := s.tickets[id];
      if current.token != ticket.token || current.settlement != ticket.settlement then (Some(SettlementChanged), s)
      else if current.state.Terminal? then (None, s)
      else if !current.state.Settling? || current.settlement.None? || current.token == "" then (Some(NotPrepared), s)
      else Settlement(s, id, current.settlement.value, current.token, a)
  }

  /** What completing a stopped execution answers and leaves behind. */
  function Completed(s: Stores, id: string, token: string, intent: SettlementIntent, a: Answers)
    : (Option<LifecycleError>, Stores)
  {
    if id !in s.tickets then (Some(NotOwner), s)
    else
      var change := Transact(s.tickets[id], Prepare(token, intent));
      if change.Raised? then (Some(CallFailed), s)
      else if change.record.None? then (Some(NotOwner), s)
      else Reconciled(PutTicket(s, id, Stored(s.tickets[id], change)), change.record.value, a)
  }

  /** What recovering one page entry answers (how many it recovered) and leaves behind. */
  function Recovered(s: Stores, ticket: AdmissionRecord, a: Answers): (Result<nat, LifecycleError>, Stores) {
    if ticket.state.Settling? then
      var (failure, after) := Reconciled(s, ticket, a);
      (if failure.Some? then Failure(failure.value) else Success(1), after)
    else if !Queued(ticket.state) then (Success(0), s)
    else if a.now >= ticket.envelope.deadline then ExpiredEntry(s, ticket, a)
    else if a.now < ticket.schedule.notBefore then (Success(0), s)
    else RepublishedEntry(s, ticket, a)
  }

  /** Queued work past its deadline is expired, and settled at once when that left a settlement. */
  function ExpiredEntry(s: Stores, ticket: AdmissionRecord, a: Answers): (Result<nat, LifecycleError>, Stores) {
    var id := ticket.envelope.jobId;
    if !a.admissionReads then (Failure(CallFailed), s)
    else if id !in s.tickets then (Success(1), s)
    else
      var claim := Transact(s.tickets[id], Claim(ticket.stage, a.now, "expiry", None));
      if claim.Raised? then (Failure(CallFailed), s)
      else
        var claimed := PutTicket(s, id, Stored(s.tickets[id], claim));
        if !claimed.tickets[id].state.Settling? then (Success(1), claimed)
        else
          var (failure, after) := Reconciled(claimed, claimed.tickets[id], a);
          (if failure.Some? then Failure(failure.value) else Success(1), after)
  }

  /** Queued work in time is published again once the store allows it. */
  function RepublishedEntry(s: Stores, ticket: AdmissionRecord, a: Answers): (Result<nat, LifecycleError>, Stores) {
    var id := ticket.envelope.jobId;
    if !a.admissionReads then (Failure(CallFailed), s)
    else if id !in s.tickets then (Success(0), s)
    else
      var change := Transact(s.tickets[id], Republish(ticket.stage, ticket.attempt, a.now));
      if change.Raised? then (Failure(CallFailed), s)
      else if !change.success then (Success(0), s)
      else
        var marked := PutTicket(s, id, Stored(s.tickets[id], change));
        if a.publishNow < ticket.envelope.deadline
        then (Success(1), marked.(published := marked.published + [(ticket.envelope, ticket.stage)]))
        else (Success(0), marked)
  }

  function CountOf(answer: Result<nat, LifecycleError>): nat {
    if answer.Success? then answer.value else 0
  }

  /** A whole page: a ticket that raises counts nothing and the next one is handled regardless. */
  function SweptPage(s: Stores, page: seq<AdmissionRecord>, answers: seq<Answers>): (nat, Stores)
    requires |answers| == |page|
    decreases |page|
  {
    if page == [] then (0, s)
    else
      var last := |page| - 1;
      var (count, before) := SweptPage(s, page[..last], answers[..last]);
      var (answer, after) := Recovered(before, page[last], answers[last]);
      (count + CountOf(answer), after)
  }

  function Reclaimed(s: Stores, reclaim: Reclaim): Stores {
    s.(reservations :=
      map id | id in s.reservations ::
        if id in reclaim.page then ExpireStale(Some(s.reservations[id]), reclaim.now).value else s.reservations[id])
  }

  /** One recovery sweep: the page, then the stale reservations; a failing reclaim is deferred too. */
  function Swept(s: Stores, page: seq<AdmissionRecord>, answers: seq<Answers>, reclaim: Option<Reclaim>): (nat, Stores)
    requires |answers| == |page|
  {
    var (count, after) := SweptPage(s, page, answers);
    match reclaim
    case None => (count, after)
    case Some(pass) => (count + pass.count, Reclaimed(after, pass))
  }

  // ----- The service -----

  class WorkerLifecycleService {
    var tickets: map<string, AdmissionRecord>
    var reservations: map<string, Reservation>
    var ledger: Ledger
    var published: seq<(JobEnvelope, JobStage)>
    const known: set<AccountingSubject>

    constructor (known: set<AccountingSubject>)
      ensures View() == Stores(map[], map[], EMPTY_LEDGER, known, [])
    {
      this.tickets, this.reservations, this.ledger, this.published := map[], map[], EMPTY_LEDGER, [];
      this.known := known;
    }

    function View(): Stores
      reads this
    {
      Stores(tickets, reservations, ledger, known, published)
    }

    /** Commit one admission transaction; `Raised` and an absent ticket leave the store alone. */
    method Admission(id: string, t: Transition) returns (change: Option<AdmissionChange>)
      modifies this`tickets
      ensures id in old(tickets) ==>
        && change == Some(Transact(old(tickets)[id], t))
        && tickets == old(tickets)[id := Stored(old(tickets)[id], change.value)]
      ensures id !in old(tickets) ==> change == None && tickets == old(tickets)
    {
      if id !in tickets { return None; }
      var planned := Transact(tickets[id], t);
      tickets := tickets[id := Stored(tickets[id], planned)];
      return Some(planned);
    }

    /** Record the stopped execution's effects first, then settle both backends before releasing. */
    method Complete(id: string, token: string, intent: SettlementIntent, a: Answers)
      returns (failure: Option<LifecycleError>)
      modifies this`tickets, this`reservations, this`ledger
      ensures (failure, View()) == Completed(old(View()), id, token, intent, a)
    {
      var change := Admission(id, Prepare(token, intent));
      if change.None? { return Some(NotOwner); }
      if change.value.Raised? || change.value.record.None? {
        assert tickets == old(tickets);
        return Some(if change.value.Raised? then CallFailed else NotOwner);
      }
      failure := Reconcile(change.value.record.value, a);
    }

    method Reconcile(ticket: AdmissionRecord, a: Answers) returns (failure: Option<LifecycleError>)
      modifies this`tickets, this`reservations, this`ledger
      ensures (failure, View()) == Reconciled(old(View()), ticket, a)
    {
      hide Transact, ApplyBatch, FinishReservation;
      var id := ticket.envelope.jobId;
      if !a.admissionReads { return Some(CallFailed); }
      if id !in tickets { return Some(TicketUnavailable); }
      var current := tickets[id];
      if current.token != ticket.token || current.settlement != ticket.settlement { return Some(SettlementChanged); }
      if current.state.Terminal? { return None; }
      if !current.state.Settling? || current.settlement.None? || current.token == "" { return Some(NotPrepared); }
      var intent := current.settlement.value;
      if intent.event.Some? {
        if !a.ledgerAnswers || !ValidEvent(intent.event.value) { return Some(CallFailed); }
        var applied := ApplyBatch(ledger, known, [intent.event.value]);
        if applied.Failure? { return Some(LedgerRefused(applied.error)); }
        ledger := applied.value;
      }
      if intent.actual != [] {
        if !a.budgetAnswers { return Some(CallFailed); }
        var (answer, held) := FinishReservation(Held(View(), id), intent.actual, a.now, a.budgetVerified);
        if held.Some? { reservations := reservations[id := held.value]; }
        if answer.Failure? { return Some(BudgetRefused(answer.error)); }
        if !Settled(answer.value) { return Some(BudgetUnverified); }
      }
      if !a.admissionReleases { return Some(CallFailed); }
      assert tickets[id := current] == tickets;
      var terminal := Admission(id, Finish(intent.outcome, current.token));
      if terminal.value.Raised? { return Some(CallFailed); }
      if terminal.value.record.None? { return Some(NotReleased); }
      return None;
    }

    method RecoverTicket(ticket: AdmissionRecord, a: Answers) returns (answer: Result<nat, LifecycleError>)
      modifies this
      ensures (answer, View()) == Recovered(old(View()), ticket, a)
    {
      var id := ticket.envelope.jobId;
      if ticket.state.Settling? {
        var failure := Reconcile(ticket, a);
        return if failure.Some? then Failure(failure.value) else Success(1);
      }
      if !Queued(ticket.state) { return Success(0); }
      if a.now >= ticket.envelope.deadline {
        if !a.admissionReads { return Failure(CallFailed); }
        var claim := Admission(id, Claim(ticket.stage, a.now, "expiry", None));
        if claim.None? { return Success(1); }
        if claim.value.Raised? {
          assert tickets == old(tickets);
          return Failure(CallFailed);
        }
        if !tickets[id].state.Settling? { return Success(1); }
        var failure := Reconcile(tickets[id], a);
        return if failure.Some? then Failure(failure.value) else Success(1);
      }
      if a.now < ticket.schedule.notBefore { return Success(0); }
      if !a.admissionReads { return Failure(CallFailed); }
      var allowed := Admission(id, Republish(ticket.stage, ticket.attempt, a.now));
      if allowed.None? { return Success(0); }
      if allowed.value.Raised? || !allowed.value.success {
        assert tickets == old(tickets);
        return if allowed.value.Raised? then Failure(CallFailed) else Success(0);
      }
      if a.publishNow < ticket.envelope.deadline {
        published := published + [(ticket.envelope, ticket.stage)];
        return Success(1);
      }
      return Success(0);
    }

    /** Handle the whole page whatever each ticket answers, then reclaim stale reservations. */
    method Recover(page: seq<AdmissionRecord>, answers: seq<Answers>, reclaim: Option<Reclaim>)
      returns (recovered: nat)
      requires |answers| == |page|
      modifies this
      ensures (recovered, View()) == Swept(old(View()), page, answers, reclaim)
    {
      hide Recovered;
      recovered := 0;
      for i := 0 to |page|
        invariant (recovered, View()) == SweptPage(old(View()), page[..i], answers[..i])
      {
        var answer := RecoverTicket(page[i], answers[i]);
        if answer.Success? { recovered := recovered + answer.value; }
        assert page[..i + 1][..i] == page[..i] && answers[..i + 1][..i] == answers[..i];
      }
      assert page[..|page|] == page && answers[..|page|] == answers;
      if reclaim.Some? {
        recovered := recovered + reclaim.value.count;
        reservations := Reclaimed(View(), reclaim.value).reservations;
      }
    }
  }

  // ----- Replay -----

  /** Every call answers and every counter verifies. */
  predicate AllAnswer(a: Answers) {
    a.admissionReads && a.ledgerAnswers && a.budgetAnswers && a.budgetVerified && a.admissionReleases && a.now >= 0.0
  }

  /** The snapshot is the current prepared settlement of a readable ticket. */
  predicate Prepared(s: Stores, ticket: AdmissionRecord) {
    var id := ticket.envelope.jobId;
    && id in s.tickets && Sound(s.tickets[id])
    && s.tickets[id].state.Settling?
    && s.tickets[id].token == ticket.token && s.tickets[id].settlement == ticket.settlement
  }

  predicate LedgerAccepts(s: Stores, intent: SettlementIntent) {
    intent.event.None? ||
    (ValidEvent(intent.event.value) && ApplyBatch(s.ledger, s.known, [intent.event.value]).Success?)
  }

  /** The reservation can still be settled, or remembers having been settled, at these amounts. */
  predicate ReservationCloses(held: Option<Reservation>, actual: seq<UnitAmount>) {
    actual == [] ||
    (held.Some? && WithinEstimates(Amounts(actual), held.value.estimates)
     && (held.value.state.Reserved?
         || (Settled(held.value.state) && held.value.actual == Some(Amounts(actual)))))
  }

  predicate CanSettle(s: Stores, id: string, intent: SettlementIntent) {
    LedgerAccepts(s, intent) && ReservationCloses(Held(s, id), intent.actual)
  }

  lemma PreparedHasOwner(r: AdmissionRecord)
    requires Sound(r) && r.state.Settling?
    ensures r.token != "" && r.settlement.Some? && ValidIntent(r.settlement.value)
    ensures DistinctUnits(r.settlement.value.actual)
    ensures Transact(r, Finish(r.settlement.value.outcome, r.token)).Change?
    ensures Transact(r, Finish(r.settlement.value.outcome, r.token)).record.Some?
    ensures Applied(r, Finish(r.settlement.value.outcome, r.token)).state.Terminal?
    ensures Applied(r, Finish(r.settlement.value.outcome, r.token)).settlement == r.settlement
    ensures Applied(r, Finish(r.settlement.value.outcome, r.token)).token == r.token
  {
  }

  /** The receipt can be booked: nothing to book, or the ledger's own conditions for one event hold. */
  predicate ReceiptFits(s: Stores, intent: SettlementIntent) {
    intent.event.None? || (ValidEvent(intent.event.value) && Bookable(s.ledger, s.known, intent.event.value))
  }

  lemma FittingIsAccepted(s: Stores, intent: SettlementIntent)
    ensures LedgerAccepts(s, intent) <==> ReceiptFits(s, intent)
  {
    hide ValidEvent, ApplyBatch, Bookable;
    if intent.event.Some? && ValidEvent(intent.event.value) {
      BatchOfOneTakenExactly(s.ledger, s.known, intent.event.value);
    }
  }

  /**
   * With every backend answering, a prepared settlement ends exactly when its receipt can be booked (the
   * same one is there already, or it is new, its subject is known and every counter has room) and its
   * reservation can still be closed; otherwise reconciling raises and it stays prepared.
   */
  lemma SettlesExactlyWhenItCan(s: Stores, ticket: AdmissionRecord, a: Answers)
    requires Prepared(s, ticket) && ticket.settlement.Some? && AllAnswer(a)
    ensures var id := ticket.envelope.jobId; var intent := ticket.settlement.value;
      var (failure, after) := Reconciled(s, ticket, a);
      && (failure.None? <==> ReceiptFits(s, intent) && ReservationCloses(Held(s, id), intent.actual))
      && id in after.tickets
      && (after.tickets[id].state.Terminal? <==> failure.None?)
      && (failure.Some? ==> after.tickets == s.tickets)
  {
    hide Reconciled, LedgerAccepts, ReceiptFits, ReservationCloses, Sound;
    SettlesWhenAccepted(s, ticket, a);
    FittingIsAccepted(s, ticket.settlement.value);
  }

  lemma SettlesWhenAccepted(s: Stores, ticket: AdmissionRecord, a: Answers)
    requires Prepared(s, ticket) && ticket.settlement.Some? && AllAnswer(a)
    ensures var id := ticket.envelope.jobId;
      var (failure, after) := Reconciled(s, ticket, a);
      && (failure.None? <==> CanSettle(s, id, ticket.settlement.value))
      && id in after.tickets
      && (after.tickets[id].state.Terminal? <==> CanSettle(s, id, ticket.settlement.value))
      && (failure.Some? ==> after.tickets == s.tickets)
  {
    hide Sound, ValidIntent, ValidEvent, ApplyBatch, Transact, Stored, Amounts, WithinEstimates, DistinctUnits;
    var r := s.tickets[ticket.envelope.jobId];
    PreparedHasOwner(r);
  }

  // What a finished settlement leaves in each backend.

  function AccountedLedger(s: Stores, intent: SettlementIntent): Ledger
    requires LedgerAccepts(s, intent)
  {
    if intent.event.None? then s.ledger else ApplyBatch(s.ledger, s.known, [intent.event.value]).value
  }

  function ClosedReservation(held: Option<Reservation>, actual: seq<UnitAmount>): Option<Reservation> {
    if actual == [] || held.None? || !held.value.state.Reserved? then held
    else
      var state := if AnyConsumed(actual) then Committed else Credited;
      Some(held.value.(state := state, actual := Some(Amounts(actual))))
  }

  /** The one state every completed settlement of this ticket arrives at. */
  function SettledStores(s: Stores, id: string, intent: SettlementIntent): Stores
    requires id in s.tickets && LedgerAccepts(s, intent)
  {
    var r := s.tickets[id];
    PutReservation(
      s.(tickets := s.tickets[id := Applied(r, Finish(intent.outcome, r.token))],
         ledger := AccountedLedger(s, intent)),
      id, ClosedReservation(Held(s, id), intent.actual))
  }

  /** Settling a closable reservation closes it, and closing it again leaves it closed. */
  lemma ClosingIsIdempotent(held: Option<Reservation>, actual: seq<UnitAmount>, now: real)
    requires ReservationCloses(held, actual) && actual != [] && DistinctUnits(actual) && now >= 0.0
    ensures var (answer, after) := FinishReservation(held, actual, now, true);
      answer.Success? && Settled(answer.value) && after == ClosedReservation(held, actual)
    ensures ReservationCloses(ClosedReservation(held, actual), actual)
    ensures ClosedReservation(ClosedReservation(held, actual), actual) == ClosedReservation(held, actual)
  {
    hide Amounts, WithinEstimates, AnyConsumed;
  }

  lemma PutSame(s: Stores, id: string)
    ensures PutReservation(s, id, Held(s, id)) == s
  {
    if id in s.reservations { assert s.reservations[id := s.reservations[id]] == s.reservations; }
  }

  lemma FullSettlement(s: Stores, ticket: AdmissionRecord, a: Answers)
    requires Prepared(s, ticket) && ticket.settlement.Some? && AllAnswer(a)
    requires CanSettle(s, ticket.envelope.jobId, ticket.settlement.value)
    ensures Reconciled(s, ticket, a) == (None, SettledStores(s, ticket.envelope.jobId, ticket.settlement.value))
  {
    hide Sound, ValidIntent, ValidEvent, ApplyBatch, Transact, FinishReservation, ReservationCloses, ClosedReservation;
    var id := ticket.envelope.jobId;
    var intent := ticket.settlement.value;
    PreparedHasOwner(s.tickets[id]);
    if intent.actual != [] { ClosingIsIdempotent(Held(s, id), intent.actual, a.now); }
    else { NothingToClose(Held(s, id)); PutSame(s, id); PutSame(s.(ledger := AccountedLedger(s, intent)), id); }
  }

  lemma NothingToClose(held: Option<Reservation>)
    ensures ClosedReservation(held, []) == held && ReservationCloses(held, [])
  {
  }

  /** An attempt that stopped anywhere left each backend either untouched or finished, in order. */
  ghost predicate PartWay(s: Stores, id: string, intent: SettlementIntent, after: Stores)
    requires id in s.tickets && LedgerAccepts(s, intent)
  {
    var done := SettledStores(s, id, intent);
    && after.known == s.known && after.published == s.published
    && (after.ledger == s.ledger || after.ledger == done.ledger)
    && (after.reservations == s.reservations || after.reservations == done.reservations)
    && (after.tickets == s.tickets || after == done)
  }

  lemma AttemptIsPartWay(s: Stores, ticket: AdmissionRecord, a: Answers)
    requires Prepared(s, ticket) && ticket.settlement.Some?
    requires CanSettle(s, ticket.envelope.jobId, ticket.settlement.value)
    ensures PartWay(s, ticket.envelope.jobId, ticket.settlement.value, Reconciled(s, ticket, a).1)
  {
    hide Sound, ValidIntent, ValidEvent, ApplyBatch, Transact, FinishReservation, ReservationCloses, ClosedReservation;
    var id := ticket.envelope.jobId;
    var intent := ticket.settlement.value;
    PreparedHasOwner(s.tickets[id]);
    var accounted := s.(ledger := AccountedLedger(s, intent));
    PutSame(s, id);
    PutSame(accounted, id);
    if intent.actual != [] { SettledWithoutVerification(Held(s, id), intent.actual, a); }
    NothingToClose(Held(s, id));
  }

  /** A settled answer means the reservation is closed; any other answer leaves it. */
  lemma SettledWithoutVerification(held: Option<Reservation>, actual: seq<UnitAmount>, a: Answers)
    requires ReservationCloses(held, actual) && actual != []
    ensures var (answer, after) := FinishReservation(held, actual, a.now, a.budgetVerified);
      if answer.Success? && Settled(answer.value) then after == ClosedReservation(held, actual) else after == held
  {
    hide Amounts, WithinEstimates, AnyConsumed, DistinctUnits;
  }

  /** Wherever an earlier attempt stopped, a full replay arrives at the one settled state. */
  lemma ReplayAfterAttempt(s: Stores, ticket: AdmissionRecord, after: Stores, a: Answers)
    requires Prepared(s, ticket) && ticket.settlement.Some? && AllAnswer(a)
    requires CanSettle(s, ticket.envelope.jobId, ticket.settlement.value)
    requires PartWay(s, ticket.envelope.jobId, ticket.settlement.value, after)
    ensures Reconciled(after, ticket, a) == (None, SettledStores(s, ticket.envelope.jobId, ticket.settlement.value))
  {
    hide Sound, ValidIntent, ValidEvent, ApplyBatch, Transact, FinishReservation, ReservationCloses, ClosedReservation;
    var id := ticket.envelope.jobId;
    var intent := ticket.settlement.value;
    PreparedHasOwner(s.tickets[id]);
    if after.tickets == s.tickets {
      LedgerReplays(s, intent, after);
      ReservationReplays(s, id, intent, after);
      FullSettlement(after, ticket, a);
      SameDestination(s, id, intent, after);
    }
  }

  lemma LedgerReplays(s: Stores, intent: SettlementIntent, after: Stores)
    requires LedgerAccepts(s, intent) && after.known == s.known
    requires after.ledger == s.ledger || after.ledger == AccountedLedger(s, intent)
    ensures LedgerAccepts(after, intent) && AccountedLedger(after, intent) == AccountedLedger(s, intent)
  {
    hide ValidEvent, ApplyBatch;
    if intent.event.Some? { BatchReplayChangesNothing(s.ledger, s.known, [intent.event.value]); }
  }

  lemma ReservationReplays(s: Stores, id: string, intent: SettlementIntent, after: Stores)
    requires id in s.tickets && CanSettle(s, id, intent) && DistinctUnits(intent.actual)
    requires after.reservations == s.reservations || after.reservations == SettledStores(s, id, intent).reservations
    ensures ReservationCloses(Held(after, id), intent.actual)
    ensures ClosedReservation(Held(after, id), intent.actual) == ClosedReservation(Held(s, id), intent.actual)
  {
    hide ValidEvent, ApplyBatch, Applied, FinishReservation, ReservationCloses, ClosedReservation, DistinctUnits;
    NothingToClose(Held(s, id));
    PutSame(s, id);
    if intent.actual != [] { ClosingIsIdempotent(Held(s, id), intent.actual, 0.0); }
    ClosingKeepsHeld(Held(s, id), intent.actual);
  }

  lemma ClosingKeepsHeld(held: Option<Reservation>, actual: seq<UnitAmount>)
    ensures ClosedReservation(held, actual).Some? <==> held.Some?
  {
  }

  lemma SameDestination(s: Stores, id: string, intent: SettlementIntent, after: Stores)
    requires id in s.tickets && LedgerAccepts(s, intent) && LedgerAccepts(after, intent)
    requires after.tickets == s.tickets && after.known == s.known && after.published == s.published
    requires AccountedLedger(after, intent) == AccountedLedger(s, intent)
    requires after.reservations == s.reservations || after.reservations == SettledStores(s, id, intent).reservations
    requires ClosedReservation(Held(after, id), intent.actual) == ClosedReservation(Held(s, id), intent.actual)
    ensures SettledStores(after, id, intent) == SettledStores(s, id, intent)
  {
    hide ValidEvent, ApplyBatch, Applied, LedgerAccepts, AccountedLedger, ClosedReservation;
    var closed := ClosedReservation(Held(s, id), intent.actual);
    if closed.Some? {
      assert s.reservations[id := closed.value][id := closed.value] == s.reservations[id := closed.value];
    }
  }

  /** Attempts in any number, each stopping wherever its calls fail. */
  function Attempts(s: Stores, ticket: AdmissionRecord, tries: seq<Answers>): Stores
    decreases |tries|
  {
    if tries == [] then s else Reconciled(Attempts(s, ticket, tries[..|tries| - 1]), ticket, tries[|tries| - 1]).1
  }

  lemma {:induction false} AttemptsArePartWay(s: Stores, ticket: AdmissionRecord, tries: seq<Answers>)
    requires Prepared(s, ticket) && ticket.settlement.Some?
    requires CanSettle(s, ticket.envelope.jobId, ticket.settlement.value)
    ensures PartWay(s, ticket.envelope.jobId, ticket.settlement.value, Attempts(s, ticket, tries))
    decreases |tries|
  {
    hide Sound, ValidIntent, ValidEvent, ApplyBatch, Transact, FinishReservation, ReservationCloses;
    hide ClosedReservation, Reconciled;
    var id := ticket.envelope.jobId;
    var intent := ticket.settlement.value;
    if tries == [] {
      PartWayStart(s, id, intent);
    } else {
      var before := Attempts(s, ticket, tries[..|tries| - 1]);
      AttemptsArePartWay(s, ticket, tries[..|tries| - 1]);
      if before.tickets == s.tickets {
        PreparedHasOwner(s.tickets[id]);
        LedgerReplays(s, intent, before);
        ReservationReplays(s, id, intent, before);
        AttemptIsPartWay(before, ticket, tries[|tries| - 1]);
        SameDestination(s, id, intent, before);
      } else {
        SettledStaysSettled(s, ticket, tries[|tries| - 1]);
      }
    }
  }

  lemma PartWayStart(s: Stores, id: string, intent: SettlementIntent)
    requires id in s.tickets && LedgerAccepts(s, intent)
    ensures PartWay(s, id, intent, s)
  {
  }

  lemma SettledStaysSettled(s: Stores, ticket: AdmissionRecord, a: Answers)
    requires Prepared(s, ticket) && ticket.settlement.Some? && LedgerAccepts(s, ticket.settlement.value)
    ensures var done := SettledStores(s, ticket.envelope.jobId, ticket.settlement.value);
      Reconciled(done, ticket, a).1 == done
  {
    hide Sound, ValidIntent, ValidEvent, ApplyBatch, Transact, FinishReservation, ReservationCloses, ClosedReservation;
    PreparedHasOwner(s.tickets[ticket.envelope.jobId]);
  }

  /**
   * Crash-safe settlement: however many attempts stopped between any two of the ledger, budget and
   * admission commits, one replay with every backend answering leaves exactly what a single
   * uninterrupted settlement would have left.
   */
  lemma ReplayConverges(s: Stores, ticket: AdmissionRecord, tries: seq<Answers>, a: Answers)
    requires Prepared(s, ticket) && ticket.settlement.Some? && AllAnswer(a)
    requires CanSettle(s, ticket.envelope.jobId, ticket.settlement.value)
    ensures Reconciled(Attempts(s, ticket, tries), ticket, a) == Reconciled(s, ticket, a)
    ensures Reconciled(s, ticket, a).0.None?
  {
    hide Reconciled, SettledStores, PartWay, CanSettle;
    AttemptsArePartWay(s, ticket, tries);
    ReplayAfterAttempt(s, ticket, Attempts(s, ticket, tries), a);
    FullSettlement(s, ticket, a);
  }

  // ----- Completing an execution -----

  /** The caller owns the ticket and brings the one intent that fits it. */
  predicate MayComplete(r: AdmissionRecord, token: string, intent: SettlementIntent) {
    && token == r.token && token != "" && Owned(r.state)
    && (r.settlement.Some? ==> r.settlement == Some(intent))
    && SettlementFits(intent, r.envelope, r.budgetReserved)
  }

  lemma PreparesExactly(r: AdmissionRecord, token: string, intent: SettlementIntent)
    requires Sound(r)
    ensures var change := Transact(r, Prepare(token, intent));
      && (change.Change? && change.record.Some? <==> MayComplete(r, token, intent))
      && (change.Change? && change.record.Some? ==>
            && change.record.value == r.(state := Settling, settlement := Some(intent))
            && Stored(r, change) == change.record.value && Sound(change.record.value))
      && (!MayComplete(r, token, intent) ==> Stored(r, change) == r)
  {
    hide ValidIntent, ValidEnvelope;
  }

  /** Anyone but the owner, and any intent but the one that fits, is refused and changes nothing. */
  lemma CompleteIsRefused(s: Stores, id: string, token: string, intent: SettlementIntent, a: Answers)
    requires Readable(s) && !(id in s.tickets && MayComplete(s.tickets[id], token, intent))
    ensures Completed(s, id, token, intent, a).0.Some? && Completed(s, id, token, intent, a).1 == s
  {
    hide Sound, Transact, Stored, MayComplete, Reconciled;
    if id in s.tickets { PreparesExactly(s.tickets[id], token, intent); }
  }

  /** Whatever fails after the preparation, the ticket is left settling with the caller's intent. */
  lemma FailedCompleteStaysPrepared(s: Stores, id: string, token: string, intent: SettlementIntent, a: Answers)
    requires Readable(s) && id in s.tickets && MayComplete(s.tickets[id], token, intent)
    ensures var (failure, after) := Completed(s, id, token, intent, a);
      failure.Some? ==>
        after.tickets == s.tickets[id := s.tickets[id].(state := Settling, settlement := Some(intent))]
  {
    hide Sound, Transact, Stored, Reconciled;
    var r := s.tickets[id];
    PreparesExactly(r, token, intent);
    var prepared := r.(state := Settling, settlement := Some(intent));
    FailedReconcileKeepsTickets(PutTicket(s, id, prepared), prepared, a);
  }

  lemma FailedReconcileKeepsTickets(s: Stores, ticket: AdmissionRecord, a: Answers)
    ensures Reconciled(s, ticket, a).0.Some? ==> Reconciled(s, ticket, a).1.tickets == s.tickets
  {
    hide ValidEvent, ApplyBatch, FinishReservation, Transact, Stored;
  }

  /**
   * An execution completes exactly when its caller owns the ticket with the one fitting intent, the
   * receipt can be booked and the reservation closed, all read off the stores before the call; the job
   * then ends with that intent, its receipt in the ledger and its reservation settled.
   */
  lemma CompletesExactly(s: Stores, id: string, token: string, intent: SettlementIntent, a: Answers)
    requires Readable(s) && AllAnswer(a)
    ensures var (failure, after) := Completed(s, id, token, intent, a);
      && (failure.None? <==>
            id in s.tickets && MayComplete(s.tickets[id], token, intent)
            && ReceiptFits(s, intent) && ReservationCloses(Held(s, id), intent.actual))
      && (failure.None? ==>
            && id in after.tickets && after.tickets[id].state.Terminal?
            && after.tickets[id].outcome == Some(intent.outcome) && after.tickets[id].settlement == Some(intent)
            && Held(after, id) == ClosedReservation(Held(s, id), intent.actual)
            && (intent.event.Some? ==>
                  intent.event.value.eventId in after.ledger.receipts
                  && after.ledger.receipts[intent.event.value.eventId] == FingerprintOf(intent.event.value)))
  {
    hide Sound, Transact, Stored, Reconciled, ReceiptFits, ReservationCloses, ClosedReservation, FingerprintOf;
    hide MayComplete;
    if !(id in s.tickets && MayComplete(s.tickets[id], token, intent)) {
      CompleteIsRefused(s, id, token, intent, a);
    } else {
      PreparesExactly(s.tickets[id], token, intent);
      CompletesWhenItMay(s, id, token, intent, a);
    }
  }

  lemma CompletesWhenItMay(s: Stores, id: string, token: string, intent: SettlementIntent, a: Answers)
    requires Readable(s) && AllAnswer(a) && id in s.tickets && MayComplete(s.tickets[id], token, intent)
    ensures var prepared := s.tickets[id].(state := Settling, settlement := Some(intent));
      var (failure, after) := Reconciled(PutTicket(s, id, prepared), prepared, a);
      && (failure.None? <==> ReceiptFits(s, intent) && ReservationCloses(Held(s, id), intent.actual))
      && (failure.None? ==>
            && id in after.tickets && after.tickets[id].state.Terminal?
            && after.tickets[id].outcome == Some(intent.outcome) && after.tickets[id].settlement == Some(intent)
            && Held(after, id) == ClosedReservation(Held(s, id), intent.actual)
            && (intent.event.Some? ==>
                  intent.event.value.eventId in after.ledger.receipts
                  && after.ledger.receipts[intent.event.value.eventId] == FingerprintOf(intent.event.value)))
  {
    var prepared := s.tickets[id].(state := Settling, settlement := Some(intent));
    var middle := PutTicket(s, id, prepared);
    PreparesExactly(s.tickets[id], token, intent);
    SettledTicketEnds(prepared);
    hide Sound, ValidIntent, Transact, Stored, Reconciled, ReservationCloses, ClosedReservation, FingerprintOf;
    hide ApplyBatch, Bookable, ValidEvent, MayComplete, FinishReservation;
    SettlesExactlyWhenItCan(middle, prepared, a);
    if ReceiptFits(s, intent) && ReservationCloses(Held(s, id), intent.actual) {
      FittingIsAccepted(middle, intent);
      FullSettlement(middle, prepared, a);
      ClosingKeepsHeld(Held(s, id), intent.actual);
      if intent.event.Some? { BookedReceipt(s.ledger, s.known, intent.event.value); }
    }
  }

  lemma SettledTicketEnds(r: AdmissionRecord)
    requires Sound(r) && r.state.Settling? && r.settlement.Some?
    ensures var ended := Applied(r, Finish(r.settlement.value.outcome, r.token));
      ended.state.Terminal? && ended.outcome == Some(r.settlement.value.outcome) && ended.settlement == r.settlement
  {
  }

  /** A booked event leaves its receipt. */
  lemma BookedReceipt(ledger: Ledger, known: set<AccountingSubject>, event: UsageEvent)
    requires ValidEvent(event) && ApplyBatch(ledger, known, [event]).Success?
    ensures var after := ApplyBatch(ledger, known, [event]).value;
      event.eventId in after.receipts && after.receipts[event.eventId] == FingerprintOf(event)
  {
    hide FingerprintOf, ValidEvent;
    SortByIdPermutes([event]);
    assert SortById([event]) == [event] by { assert [event][1..] == [] && SortById([]) == []; }
    ApplyEventsKeepsReceipts(ledger, known, [event]);
  }

  // ----- Sweeps -----

  /** One entry's recovery touches only its own ticket and its own reservation. */
  ghost predicate TouchesOnly(s: Stores, id: string, after: Stores) {
    && after.known == s.known
    && after.tickets.Keys == s.tickets.Keys
    && (forall other :: other in s.tickets && other != id ==> after.tickets[other] == s.tickets[other])
    && (forall other :: other != id ==> Held(after, other) == Held(s, other))
  }

  lemma SettlementTouchesOnly(s: Stores, id: string, intent: SettlementIntent, token: string, a: Answers)
    ensures TouchesOnly(s, id, Settlement(s, id, intent, token, a).1)
  {
    hide ValidEvent, ApplyBatch, Transact, FinishReservation;
  }

  lemma ReconciledTouchesOnly(s: Stores, ticket: AdmissionRecord, a: Answers)
    ensures TouchesOnly(s, ticket.envelope.jobId, Reconciled(s, ticket, a).1)
  {
    hide Settlement;
    var id := ticket.envelope.jobId;
    if id in s.tickets && s.tickets[id].settlement.Some? {
      SettlementTouchesOnly(s, id, s.tickets[id].settlement.value, s.tickets[id].token, a);
    }
  }

  lemma TouchesTransitive(s: Stores, id: string, middle: Stores, after: Stores)
    requires TouchesOnly(s, id, middle) && TouchesOnly(middle, id, after)
    ensures TouchesOnly(s, id, after)
  {
  }

  lemma PutTouchesOnly(s: Stores, id: string, r: AdmissionRecord)
    requires id in s.tickets
    ensures TouchesOnly(s, id, PutTicket(s, id, r)) && TouchesOnly(s, id, s)
  {
  }

  lemma ClaimKeepsEnvelope(r: AdmissionRecord, t: Transition)
    requires t.Claim?
    ensures Stored(r, Transact(r, t)).envelope == r.envelope
  {
  }

  lemma ExpiredTouchesOnly(s: Stores, ticket: AdmissionRecord, a: Answers)
    requires Readable(s) && ticket.envelope.jobId in s.tickets
    ensures TouchesOnly(s, ticket.envelope.jobId, ExpiredEntry(s, ticket, a).1)
  {
    hide Reconciled, Transact, Sound, Stored, TouchesOnly;
    var id := ticket.envelope.jobId;
    var claim := Claim(ticket.stage, a.now, "expiry", None);
    var claimed := PutTicket(s, id, Stored(s.tickets[id], Transact(s.tickets[id], claim)));
    PutTouchesOnly(s, id, claimed.tickets[id]);
    ClaimKeepsEnvelope(s.tickets[id], claim);
    ReconciledTouchesOnly(claimed, claimed.tickets[id], a);
    TouchesTransitive(s, id, claimed, Reconciled(claimed, claimed.tickets[id], a).1);
  }

  lemma RepublishedTouchesOnly(s: Stores, ticket: AdmissionRecord, a: Answers)
    ensures TouchesOnly(s, ticket.envelope.jobId, RepublishedEntry(s, ticket, a).1)
  {
    hide Transact, Stored;
  }

  lemma RecoveredTouchesOnly(s: Stores, ticket: AdmissionRecord, a: Answers)
    requires Readable(s)
    ensures TouchesOnly(s, ticket.envelope.jobId, Recovered(s, ticket, a).1)
  {
    hide Reconciled, RepublishedEntry, Transact, Sound, Stored, Readable;
    var id := ticket.envelope.jobId;
    ReconciledTouchesOnly(s, ticket, a);
    RepublishedTouchesOnly(s, ticket, a);
    if id in s.tickets { ExpiredTouchesOnly(s, ticket, a); }
  }

  /** What one admission transaction does to a ticket, or nothing. */
  predicate OneTransaction(r: AdmissionRecord, after: AdmissionRecord) {
    Sound(after) && Evolves(r, after)
  }

  lemma TransactionIsOne(r: AdmissionRecord, t: Transition)
    requires Sound(r)
    ensures OneTransaction(r, Applied(r, t)) && OneTransaction(r, r)
  {
    hide Sound, Applied;
    SoundHasShape(r);
    TransitionKeepsRecordReadable(r, t);
    TransitionEvolves(r, t);
  }

  lemma OneTransactionTransitive(r: AdmissionRecord, middle: AdmissionRecord, after: AdmissionRecord)
    requires OneTransaction(r, middle) && OneTransaction(middle, after)
    ensures OneTransaction(r, after)
  {
    hide Sound;
  }

  lemma ReconciledEvolves(s: Stores, ticket: AdmissionRecord, a: Answers)
    requires ticket.envelope.jobId in s.tickets && Sound(s.tickets[ticket.envelope.jobId])
    ensures var id := ticket.envelope.jobId; var after := Reconciled(s, ticket, a).1;
      id in after.tickets && OneTransaction(s.tickets[id], after.tickets[id])
  {
    hide Transact, Sound, OneTransaction, ApplyBatch, FinishReservation, ValidEvent;
    var r := s.tickets[ticket.envelope.jobId];
    TransactionIsOne(r, Finish(if r.settlement.Some? then r.settlement.value.outcome else Failed, r.token));
  }

  lemma ExpiredEvolves(s: Stores, ticket: AdmissionRecord, a: Answers)
    requires Readable(s) && ticket.envelope.jobId in s.tickets
    ensures var id := ticket.envelope.jobId; var after := ExpiredEntry(s, ticket, a).1;
      id in after.tickets && OneTransaction(s.tickets[id], after.tickets[id])
  {
    hide Reconciled, Transact, Sound, Stored, OneTransaction;
    var id := ticket.envelope.jobId;
    var r := s.tickets[id];
    var claim := Claim(ticket.stage, a.now, "expiry", None);
    TransactionIsOne(r, claim);
    SoundOf(r, Applied(r, claim));
    var claimed := PutTicket(s, id, Stored(r, Transact(r, claim)));
    ClaimKeepsEnvelope(r, claim);
    ReconciledEvolves(claimed, claimed.tickets[id], a);
    var after := Reconciled(claimed, claimed.tickets[id], a).1;
    OneTransactionTransitive(r, claimed.tickets[id], after.tickets[id]);
  }

  lemma SoundOf(r: AdmissionRecord, after: AdmissionRecord)
    requires OneTransaction(r, after)
    ensures Sound(after) && Evolves(r, after)
  {
    hide Sound;
  }

  lemma RecoveredEvolves(s: Stores, ticket: AdmissionRecord, a: Answers)
    requires Readable(s) && ticket.envelope.jobId in s.tickets
    ensures var id := ticket.envelope.jobId; var after := Recovered(s, ticket, a).1;
      id in after.tickets && OneTransaction(s.tickets[id], after.tickets[id])
  {
    hide Reconciled, ExpiredEntry, Transact, Sound, OneTransaction;
    var r := s.tickets[ticket.envelope.jobId];
    TransactionIsOne(r, Republish(ticket.stage, ticket.attempt, a.now));
    ReconciledEvolves(s, ticket, a);
    ExpiredEvolves(s, ticket, a);
  }

  lemma RecoveredKeepsReadable(s: Stores, ticket: AdmissionRecord, a: Answers)
    requires Readable(s)
    ensures Readable(Recovered(s, ticket, a).1)
  {
    hide Recovered, Sound, OneTransaction;
    var id := ticket.envelope.jobId;
    RecoveredTouchesOnly(s, ticket, a);
    if id in s.tickets {
      RecoveredEvolves(s, ticket, a);
      SoundOf(s.tickets[id], Recovered(s, ticket, a).1.tickets[id]);
    }
  }

  lemma {:induction false} SweptKeepsReadable(s: Stores, page: seq<AdmissionRecord>, answers: seq<Answers>)
    requires Readable(s) && |answers| == |page|
    ensures Readable(SweptPage(s, page, answers).1)
    decreases |page|
  {
    hide Recovered, Readable;
    if page != [] {
      var last := |page| - 1;
      SweptKeepsReadable(s, page[..last], answers[..last]);
      RecoveredKeepsReadable(SweptPage(s, page[..last], answers[..last]).1, page[last], answers[last]);
    }
  }

  predicate LiveOwner(state: TicketState) {
    state.Running? || state.Cancelling? || state.DeliveryUncertain?
  }

  /** Recovery never acts on work whose owner may still be running or may have delivered, however old the page is. */
  lemma LiveOwnerIsLeftAlone(s: Stores, ticket: AdmissionRecord, a: Answers)
    requires Readable(s) && ticket.envelope.jobId in s.tickets
    requires LiveOwner(s.tickets[ticket.envelope.jobId].state)
    ensures Recovered(s, ticket, a).1.tickets == s.tickets
    ensures Recovered(s, ticket, a).1.reservations == s.reservations && Recovered(s, ticket, a).1.ledger == s.ledger
  {
    hide Sound, Settlement;
    var id := ticket.envelope.jobId;
    assert s.tickets[id := s.tickets[id]] == s.tickets;
  }

  lemma {:induction false} PageLeavesLiveOwnersAlone(
    s: Stores, page: seq<AdmissionRecord>, answers: seq<Answers>, id: string)
    requires Readable(s) && |answers| == |page|
    requires id in s.tickets && LiveOwner(s.tickets[id].state)
    ensures var after := SweptPage(s, page, answers).1;
      id in after.tickets && after.tickets[id] == s.tickets[id] && Held(after, id) == Held(s, id)
    decreases |page|
  {
    hide Recovered, Readable;
    if page != [] {
      var last := |page| - 1;
      var before := SweptPage(s, page[..last], answers[..last]).1;
      PageLeavesLiveOwnersAlone(s, page[..last], answers[..last], id);
      SweptKeepsReadable(s, page[..last], answers[..last]);
      RecoveredTouchesOnly(before, page[last], answers[last]);
      if page[last].envelope.jobId == id { LiveOwnerIsLeftAlone(before, page[last], answers[last]); }
    }
  }

  /** The reclaim of this sweep takes the reservation away. */
  predicate Reclaims(held: Option<Reservation>, id: string, reclaim: Option<Reclaim>) {
    && reclaim.Some? && id in reclaim.value.page
    && held.Some? && held.value.state.Reserved?
    && held.value.deadline <= reclaim.value.now - STALE_RESERVATION_GRACE_SECONDS
  }

  /**
   * A whole sweep never touches the ticket of work whose owner may still be running or may have
   * delivered, and touches its reservation exactly when the reclaim finds it ten minutes past its deadline.
   */
  lemma {:induction false} SweepLeavesLiveOwnersAlone(
    s: Stores, page: seq<AdmissionRecord>, answers: seq<Answers>, reclaim: Option<Reclaim>, id: string)
    requires Readable(s) && |answers| == |page|
    requires id in s.tickets && LiveOwner(s.tickets[id].state)
    ensures var after := Swept(s, page, answers, reclaim).1;
      && id in after.tickets && after.tickets[id] == s.tickets[id]
      && (Held(after, id) == Held(s, id) <==> !Reclaims(Held(s, id), id, reclaim))
      && (Reclaims(Held(s, id), id, reclaim) ==>
            Held(after, id).Some? && Held(after, id).value.state.ReservationExpired?)
  {
    hide Readable, SweptPage;
    PageLeavesLiveOwnersAlone(s, page, answers, id);
  }

  predicate OnPage(page: seq<AdmissionRecord>, id: string) {
    exists i :: 0 <= i < |page| && page[i].envelope.jobId == id
  }

  lemma {:induction false} SweepTouchesOnlyItsPage(
    s: Stores, page: seq<AdmissionRecord>, answers: seq<Answers>, id: string)
    requires Readable(s) && |answers| == |page| && !OnPage(page, id)
    ensures var after := SweptPage(s, page, answers).1;
      && (id in after.tickets <==> id in s.tickets)
      && (id in s.tickets ==> after.tickets[id] == s.tickets[id])
      && Held(after, id) == Held(s, id) && after.known == s.known
    decreases |page|
  {
    hide Recovered, Readable;
    if page != [] {
      var last := |page| - 1;
      var before := SweptPage(s, page[..last], answers[..last]).1;
      assert page[last].envelope.jobId != id;
      assert forall i :: 0 <= i < last ==> page[..last][i] == page[i];
      SweepTouchesOnlyItsPage(s, page[..last], answers[..last], id);
      SweptKeepsReadable(s, page[..last], answers[..last]);
      RecoveredTouchesOnly(before, page[last], answers[last]);
    }
  }

  predicate DistinctPage(page: seq<AdmissionRecord>) {
    forall i, j :: 0 <= i < j < |page| ==> page[i].envelope.jobId != page[j].envelope.jobId
  }

  /**
   * One failing ticket cannot block another: whatever the other entries of the page answer, the entry
   * at position i is handled, on its own ticket and reservation as they were before the sweep.
   */
  lemma {:induction false} EveryEntryIsHandled(s: Stores, page: seq<AdmissionRecord>, answers: seq<Answers>, i: nat)
    requires Readable(s) && |answers| == |page| && DistinctPage(page) && i < |page|
    ensures var id := page[i].envelope.jobId;
      var before := SweptPage(s, page[..i], answers[..i]).1;
      var after := SweptPage(s, page, answers).1;
      && Readable(before)
      && (id in before.tickets <==> id in s.tickets) && (id in s.tickets ==> before.tickets[id] == s.tickets[id])
      && Held(before, id) == Held(s, id)
      && (id in after.tickets <==> id in s.tickets)
      && (id in s.tickets ==>
            id in Recovered(before, page[i], answers[i]).1.tickets
            && after.tickets[id] == Recovered(before, page[i], answers[i]).1.tickets[id])
    decreases |page|
  {
    hide Recovered, Readable;
    var id := page[i].envelope.jobId;
    var last := |page| - 1;
    var shorter := page[..last];
    SweptKeepsReadable(s, page[..i], answers[..i]);
    assert !OnPage(page[..i], id);
    SweepTouchesOnlyItsPage(s, page[..i], answers[..i], id);
    var beforeLast := SweptPage(s, shorter, answers[..last]).1;
    SweptKeepsReadable(s, shorter, answers[..last]);
    RecoveredTouchesOnly(beforeLast, page[last], answers[last]);
    if i < last {
      assert shorter[..i] == page[..i] && answers[..last][..i] == answers[..i];
      EveryEntryIsHandled(s, shorter, answers[..last], i);
    }
  }

  /**
   * A sweep takes a prepared settlement whose backends answer to its end exactly when the ledger takes
   * its receipt at its turn and its reservation can still be closed.
   */
  lemma {:induction false} SweepSettlesAtItsTurn(s: Stores, page: seq<AdmissionRecord>, answers: seq<Answers>, i: nat)
    requires Readable(s) && |answers| == |page| && DistinctPage(page) && i < |page|
    requires Prepared(s, page[i]) && page[i].state.Settling? && page[i].settlement.Some? && AllAnswer(answers[i])
    ensures var id := page[i].envelope.jobId; var intent := page[i].settlement.value;
      var after := SweptPage(s, page, answers).1;
      id in after.tickets
      && (after.tickets[id].state.Terminal? <==>
            LedgerAccepts(SweptPage(s, page[..i], answers[..i]).1, intent)
            && ReservationCloses(Held(s, id), intent.actual))
  {
    hide Reconciled, Sound, SweptPage, LedgerAccepts, ReservationCloses, Readable;
    EveryEntryIsHandled(s, page, answers, i);
    var before := SweptPage(s, page[..i], answers[..i]).1;
    SettlesWhenAccepted(before, page[i], answers[i]);
  }

  // ----- Settlements that recovery can no longer finish -----

  datatype Sweep = Sweep(page: seq<AdmissionRecord>, answers: seq<Answers>, reclaim: Option<Reclaim>)

  predicate PairedSweeps(sweeps: seq<Sweep>) {
    forall i :: 0 <= i < |sweeps| ==> |sweeps[i].answers| == |sweeps[i].page|
  }

  function SweptAll(s: Stores, sweeps: seq<Sweep>): Stores
    requires PairedSweeps(sweeps)
    decreases |sweeps|
  {
    if sweeps == [] then s
    else
      var first := sweeps[0];
      SweptAll(Swept(s, first.page, first.answers, first.reclaim).1, sweeps[1..])
  }

  /** A prepared settlement whose reservation no longer closes at its amounts. */
  predicate Stuck(s: Stores, id: string) {
    && id in s.tickets && s.tickets[id].state.Settling? && s.tickets[id].settlement.Some?
    && DistinctUnits(s.tickets[id].settlement.value.actual)
    && !ReservationCloses(Held(s, id), s.tickets[id].settlement.value.actual)
  }

  lemma UnclosedStaysUnclosed(held: Option<Reservation>, actual: seq<UnitAmount>, now: real, verified: bool)
    requires !ReservationCloses(held, actual) && DistinctUnits(actual)
    ensures var (answer, after) := FinishReservation(held, actual, now, verified);
      after == held && !(answer.Success? && Settled(answer.value))
    ensures !ReservationCloses(ExpireStale(held, now), actual)
  {
    hide Amounts, WithinEstimates, DistinctUnits;
  }

  lemma StuckReconcile(s: Stores, id: string, ticket: AdmissionRecord, a: Answers)
    requires Stuck(s, id) && ticket.envelope.jobId == id
    ensures Stuck(Reconciled(s, ticket, a).1, id)
  {
    hide ReservationCloses, DistinctUnits, FinishReservation, ApplyBatch, ValidEvent, ReleaseStage;
    UnclosedStaysUnclosed(Held(s, id), s.tickets[id].settlement.value.actual, a.now, a.budgetVerified);
    PutSame(s, id);
    NothingToClose(Held(s, id));
  }

  lemma StuckEntry(s: Stores, id: string, ticket: AdmissionRecord, a: Answers)
    requires Readable(s) && Stuck(s, id)
    ensures Stuck(Recovered(s, ticket, a).1, id)
  {
    hide ReservationCloses, DistinctUnits, Reconciled, Sound;
    RecoveredTouchesOnly(s, ticket, a);
    if ticket.envelope.jobId == id {
      StuckReconcile(s, id, ticket, a);
      assert s.tickets[id := s.tickets[id]] == s.tickets;
      StuckReconcile(s, id, s.tickets[id], a);
    }
  }

  lemma {:induction false} StuckPage(s: Stores, id: string, page: seq<AdmissionRecord>, answers: seq<Answers>)
    requires Readable(s) && Stuck(s, id) && |answers| == |page|
    ensures Stuck(SweptPage(s, page, answers).1, id)
    decreases |page|
  {
    hide Recovered, Readable, Stuck;
    if page != [] {
      var last := |page| - 1;
      StuckPage(s, id, page[..last], answers[..last]);
      SweptKeepsReadable(s, page[..last], answers[..last]);
      StuckEntry(SweptPage(s, page[..last], answers[..last]).1, id, page[last], answers[last]);
    }
  }

  lemma StuckReclaim(s: Stores, id: string, reclaim: Reclaim)
    requires Stuck(s, id)
    ensures Stuck(Reclaimed(s, reclaim), id)
  {
    hide ReservationCloses, DistinctUnits;
    UnclosedStaysUnclosed(Held(s, id), s.tickets[id].settlement.value.actual, reclaim.now, true);
  }

  /** Once its reservation cannot be closed, no number of sweeps ever ends the job. */
  lemma {:induction false} StuckForever(s: Stores, id: string, sweeps: seq<Sweep>)
    requires Readable(s) && Stuck(s, id) && PairedSweeps(sweeps)
    ensures Stuck(SweptAll(s, sweeps), id)
    decreases |sweeps|
  {
    hide Stuck, Readable, SweptPage, Reclaimed;
    if sweeps != [] {
      var first := sweeps[0];
      SweptKeepsReadable(s, first.page, first.answers);
      StuckPage(s, id, first.page, first.answers);
      var paged := SweptPage(s, first.page, first.answers).1;
      if first.reclaim.Some? {
        StuckReclaim(paged, id, first.reclaim.value);
        ReclaimKeepsReadable(paged, first.reclaim.value);
      }
      StuckForever(Swept(s, first.page, first.answers, first.reclaim).1, id, sweeps[1..]);
    }
  }

  lemma ReclaimKeepsReadable(s: Stores, reclaim: Reclaim)
    requires Readable(s)
    ensures Readable(Reclaimed(s, reclaim))
  {
    hide Sound;
  }

  /** One unverifiable budget call in the sweep that also reclaims the reservation is enough. */
  lemma OneSlowSweepStrands(s: Stores, ticket: AdmissionRecord, a: Answers, now: real)
    requires Prepared(s, ticket) && ticket.state.Settling? && ticket.settlement.Some?
    requires ticket.settlement.value.actual != [] && !a.budgetVerified
    requires var held := Held(s, ticket.envelope.jobId);
      held.Some? && held.value.state.Reserved? && held.value.deadline <= now - STALE_RESERVATION_GRACE_SECONDS
    ensures Stuck(Swept(s, [ticket], [a], Some(Reclaim(now, {ticket.envelope.jobId}, 1))).1, ticket.envelope.jobId)
  {
    hide Sound, ValidIntent, ApplyBatch, ValidEvent, Amounts, WithinEstimates, DistinctUnits, Transact;
    var id := ticket.envelope.jobId;
    PreparedHasOwner(s.tickets[id]);
    PutSame(s, id);
    assert SweptPage(s, [ticket][..0], [a][..0]).1 == s;
    var paged := SweptPage(s, [ticket], [a]).1;
    assert paged == Reconciled(s, ticket, a).1;
    UnverifiedKeeps(s, ticket, a);
  }

  /** An unverified budget leaves the reservation held and the ticket prepared. */
  lemma UnverifiedKeeps(s: Stores, ticket: AdmissionRecord, a: Answers)
    requires Prepared(s, ticket) && ticket.settlement.Some?
    requires ticket.settlement.value.actual != [] && !a.budgetVerified
    requires var held := Held(s, ticket.envelope.jobId); held.Some? && held.value.state.Reserved?
    ensures var after := Reconciled(s, ticket, a).1;
      after.tickets == s.tickets && after.reservations == s.reservations
  {
    hide Sound, ValidIntent, ApplyBatch, ValidEvent, Amounts, WithinEstimates, DistinctUnits, Transact;
    PutSame(s, ticket.envelope.jobId);
    PutSame(s.(ledger := LedgerStage(s, ticket.settlement.value, a).1.ledger), ticket.envelope.jobId);
  }

  /** A job of user 7 that ran out of time while it held one request of budget. */
  function StrandedTicket(): AdmissionRecord {
    AdmissionRecord(
      SAMPLE_ENVELOPE,
      Settling, Browser, 10, 1, RECOVERY_TOKEN, Schedule(false, false, 0.0, 0.0), None, Some(ZeroIntent(Expired)), true,
      Notices(false, false, false, false, false))
  }

  function StrandedStores(): Stores {
    Stores(
      map["job-1" := StrandedTicket()],
      map["job-1" := Reservation(Reserved, 300.0, map[Requests := 1], None)],
      EMPTY_LEDGER, {}, [])
  }

  function UnverifiedAnswers(): Answers {
    Answers(true, true, true, false, true, 900.0, 900.0)
  }

  /**
   * "Every prepared settlement ends once its backends answer again" is false: this ticket stays
   * prepared through every later sweep, although only one budget check was ever inconclusive.
   */
  lemma RecoveryCanStrandASettlement(sweeps: seq<Sweep>)
    requires PairedSweeps(sweeps)
    ensures Prepared(StrandedStores(), StrandedTicket())
    ensures ReservationCloses(Held(StrandedStores(), "job-1"), StrandedTicket().settlement.value.actual)
    ensures var reclaim := Reclaim(900.0, {"job-1"}, 1);
      var first := Swept(StrandedStores(), [StrandedTicket()], [UnverifiedAnswers()], Some(reclaim)).1;
      var later := SweptAll(first, sweeps);
      "job-1" in later.tickets && later.tickets["job-1"].state.Settling?
  {
    StrandedTicketIsSound();
    StrandedReservationCloses();
    OneSlowSweepStrands(StrandedStores(), StrandedTicket(), UnverifiedAnswers(), 900.0);
    SweptKeepsReadable(StrandedStores(), [StrandedTicket()], [UnverifiedAnswers()]);
    ReclaimKeepsReadable(
      SweptPage(StrandedStores(), [StrandedTicket()], [UnverifiedAnswers()]).1, Reclaim(900.0, {"job-1"}, 1));
    StuckForever(
      Swept(StrandedStores(), [StrandedTicket()], [UnverifiedAnswers()], Some(Reclaim(900.0, {"job-1"}, 1))).1,
      "job-1", sweeps);
  }

  lemma StrandedTicketIsSound()
    ensures Sound(StrandedTicket())
  {
    hide ValidEnvelope, ValidIntent;
    SampleEnvelopeIsValid();
    RecoveryTokenIsTechnical();
    ZeroIntentIsValid(Expired);
  }

  lemma StrandedReservationCloses()
    ensures ReservationCloses(Held(StrandedStores(), "job-1"), [UnitAmount(Requests, 0)])
  {
    assert [UnitAmount(Requests, 0)][..0] == [];
    assert Amounts([UnitAmount(Requests, 0)]) == map[Requests := 0];
  }

  /** A reserved job never ends through its settlement with its reservation left open. */
  lemma {:induction false} CompletedReservationIsClosed(
    s: Stores, id: string, token: string, intent: SettlementIntent, a: Answers)
    requires Readable(s) && AllAnswer(a) && id in s.tickets && s.tickets[id].budgetReserved
    ensures var (failure, after) := Completed(s, id, token, intent, a);
      failure.None? ==> intent.actual != [] && Held(after, id).Some? && Settled(Held(after, id).value.state)
  {
    hide Sound, Transact, Stored, Reconciled, ReceiptFits, FingerprintOf, ValidRecord, Completed;
    CompletesExactly(s, id, token, intent, a);
  }

  /**
   * The stages of a settlement are asked in order and the first that fails ends it: a ledger that does not answer
   * leaves everything, a budget that does not answer leaves reservation and ticket, an unanswered release the ticket.
   */
  lemma {:induction false} FirstFailureStops(s: Stores, id: string, intent: SettlementIntent, token: string, a: Answers)
    ensures intent.event.Some? && !a.ledgerAnswers ==> Settlement(s, id, intent, token, a) == (Some(CallFailed), s)
    ensures intent.actual != [] && !a.budgetAnswers ==>
      var (failure, after) := Settlement(s, id, intent, token, a);
      failure.Some? && after.reservations == s.reservations && after.tickets == s.tickets
    ensures !a.admissionReleases ==>
      var (failure, after) := Settlement(s, id, intent, token, a); failure.Some? && after.tickets == s.tickets
    ensures intent.actual != [] && !a.budgetVerified && Held(s, id).Some? && Held(s, id).value.state.Reserved? ==>
      var (failure, after) := Settlement(s, id, intent, token, a);
      failure.Some? && Held(after, id) == Held(s, id) && after.tickets == s.tickets
  {
    hide Transact, Stored, ApplyBatch, ValidEvent, Amounts, WithinEstimates, DistinctUnits;
  }
}
