/**
 * What one sweep achieves, read off the stores it starts from: which receipts of its page the ledger
 * takes, which settlements end, and how repeated sweeps drain the settling tickets.
 */
module RecoveryProgress {
  import opened Wrappers
  import opened Usage
  import opened Jobs
  import opened AdmissionState
  import opened Budgets
  import opened UsageLedger
  import opened WorkerLifecycle

  // ----- The ledger during a page -----

  /** The receipt an entry brings to the ledger, when it gets that far. */
  function AtLedger(s: Stores, ticket: AdmissionRecord, a: Answers): Option<UsageEvent> {
    var id := ticket.envelope.jobId;
    if !a.admissionReads || !a.ledgerAnswers || id !in s.tickets then None
    else
      var r := s.tickets[id];
      var prepared := r.state.Settling? && r.settlement.Some? && r.token != "";
      if ticket.state.Settling? then
        if prepared && r.token == ticket.token && r.settlement == ticket.settlement
        then r.settlement.value.event else None
      else if Queued(ticket.state) && prepared && a.now >= ticket.envelope.deadline && a.now >= 0.0
      then r.settlement.value.event
      else None
  }

  function LedgerAfter(s: Stores, event: Option<UsageEvent>): Ledger {
    if event.Some? && ValidEvent(event.value) && ApplyBatch(s.ledger, s.known, [event.value]).Success?
    then ApplyBatch(s.ledger, s.known, [event.value]).value
    else s.ledger
  }

  lemma {:induction false} SettlementLedger(s: Stores, id: string, intent: SettlementIntent, token: string, a: Answers)
    ensures Settlement(s, id, intent, token, a).1.ledger
      == LedgerAfter(s, if a.ledgerAnswers then intent.event else None)
  {
    hide ValidEvent, ApplyBatch, FinishReservation, Transact, Stored;
  }

  lemma {:induction false} ReconciledLedger(s: Stores, ticket: AdmissionRecord, a: Answers)
    requires ticket.state.Settling?
    ensures Reconciled(s, ticket, a).1.ledger == LedgerAfter(s, AtLedger(s, ticket, a))
  {
    hide Settlement, LedgerAfter;
    var id := ticket.envelope.jobId;
    NothingBooked(s);
    if id in s.tickets && s.tickets[id].settlement.Some? {
      SettlementLedger(s, id, s.tickets[id].settlement.value, s.tickets[id].token, a);
    }
  }

  lemma NothingBooked(s: Stores)
    ensures LedgerAfter(s, None) == s.ledger
  {
  }

  /** Expiring a ticket that is not queued leaves it; expiring a queued one never brings a receipt. */
  lemma {:induction false} ExpiryClaim(r: AdmissionRecord, ticket: AdmissionRecord, now: real)
    requires Sound(r)
    ensures var claim := Transact(r, Claim(ticket.stage, now, "expiry", None)); var after := Stored(r, claim);
      && (claim.Raised? <==> now < 0.0)
      && (!Queued(r.state) ==> after == r)
      && (Queued(r.state) && after.state.Settling? ==> after.settlement.Some? && after.settlement.value.event.None?)
      && after.envelope == r.envelope
  {
    hide ValidRecord;
  }

  lemma {:induction false} EntryLedger(s: Stores, ticket: AdmissionRecord, a: Answers)
    requires Readable(s)
    ensures Recovered(s, ticket, a).1.ledger == LedgerAfter(s, AtLedger(s, ticket, a))
  {
    hide LedgerAfter, Transact, Stored, Sound, Reconciled;
    NothingBooked(s);
    if ticket.state.Settling? {
      ReconciledLedger(s, ticket, a);
    } else if Queued(ticket.state) && a.now >= ticket.envelope.deadline && ticket.envelope.jobId in s.tickets {
      ExpiredLedger(s, ticket, a);
    }
  }

  lemma {:induction false} ExpiredLedger(s: Stores, ticket: AdmissionRecord, a: Answers)
    requires Readable(s) && Queued(ticket.state) && a.now >= ticket.envelope.deadline
    requires ticket.envelope.jobId in s.tickets
    ensures ExpiredEntry(s, ticket, a).1.ledger == LedgerAfter(s, AtLedger(s, ticket, a))
  {
    hide LedgerAfter, Transact, Stored, Sound, Reconciled;
    var id := ticket.envelope.jobId;
    var r := s.tickets[id];
    NothingBooked(s);
    ExpiryClaim(r, ticket, a.now);
    SoundHere(s, id);
    var claimed := PutTicket(s, id, Stored(r, Transact(r, Claim(ticket.stage, a.now, "expiry", None))));
    if claimed.tickets[id].state.Settling? {
      ReconciledLedger(claimed, claimed.tickets[id], a);
      SameBooks(claimed, s, AtLedger(claimed, claimed.tickets[id], a));
    }
  }

  lemma SoundHere(s: Stores, id: string)
    requires Readable(s) && id in s.tickets
    ensures s.tickets[id].envelope.jobId == id
    ensures s.tickets[id].state.Settling? ==> s.tickets[id].settlement.Some? && s.tickets[id].token != ""
    ensures s.tickets[id].settlement.Some? && s.tickets[id].settlement.value.event.Some? ==>
      && ValidEvent(s.tickets[id].settlement.value.event.value)
      && s.tickets[id].settlement.value.event.value.eventId == id
  {
  }

  lemma SameBooks(s: Stores, t: Stores, event: Option<UsageEvent>)
    requires s.ledger == t.ledger && s.known == t.known
    ensures LedgerAfter(s, event) == LedgerAfter(t, event)
  {
  }

  /** The receipts the first n entries of a page book for the first time, told from the stores before the sweep. */
  function NewlyBooked(s: Stores, page: seq<AdmissionRecord>, answers: seq<Answers>, n: nat): seq<UsageEvent>
    requires n <= |page| == |answers|
    decreases n, 0
  {
    if n == 0 then []
    else
      NewlyBooked(s, page, answers, n - 1)
      + if Books(s, page, answers, n - 1) then [AtLedger(s, page[n - 1], answers[n - 1]).value] else []
  }

  /** Every counter of a receipt still has room once the earlier entries have booked theirs. */
  predicate RoomInPage(s: Stores, page: seq<AdmissionRecord>, answers: seq<Answers>, i: nat, event: UsageEvent)
    requires i <= |page| == |answers| && ValidEvent(event)
    decreases i, 1
  {
    forall k :: 0 <= k < |event.charges| ==>
      var key := KeyOf(event, event.charges[k]);
      Row(s.ledger.rows, key) + LoggedTotal(NewlyBooked(s, page, answers, i), key)
        <= MAX_ACCOUNTING_INTEGER - event.charges[k].amount
  }

  /** Entry i books a receipt that was not there before the sweep. */
  predicate Books(s: Stores, page: seq<AdmissionRecord>, answers: seq<Answers>, i: nat)
    requires i < |page| == |answers|
    decreases i, 2
  {
    var event := AtLedger(s, page[i], answers[i]);
    && event.Some? && ValidEvent(event.value)
    && event.value.eventId !in s.ledger.receipts && event.value.subject in s.known
    && RoomInPage(s, page, answers, i, event.value)
  }

  /** The ledger takes a receipt at position i of a page, told from the stores before the sweep. */
  predicate TakenInPage(s: Stores, page: seq<AdmissionRecord>, answers: seq<Answers>, i: nat, event: UsageEvent)
    requires i <= |page| == |answers| && ValidEvent(event)
  {
    if event.eventId in s.ledger.receipts then s.ledger.receipts[event.eventId] == FingerprintOf(event)
    else event.subject in s.known && RoomInPage(s, page, answers, i, event)
  }

  lemma {:induction false} KeysAreAligned(event: UsageEvent, charge: UsageCharge)
    requires ValidWindow(charge.window) && event.occurredAt >= 0
    ensures Aligned(KeyOf(event, charge))
  {
    WindowsPartitionTime(charge.window, event.occurredAt, WindowStart(charge.window, event.occurredAt));
    if event.occurredAt < charge.window.seconds {
      assert event.occurredAt % charge.window.seconds == event.occurredAt;
    } else {
      assert event.occurredAt % charge.window.seconds < charge.window.seconds;
    }
  }

  /** The ledger at a turn: the first books plus what the page has booked so far. */
  ghost predicate BooksAdd(s: Stores, t: Stores, booked: seq<UsageEvent>) {
    t.known == s.known
    && forall key :: Aligned(key) ==> Row(t.ledger.rows, key) == Row(s.ledger.rows, key) + LoggedTotal(booked, key)
  }

  predicate SameReceipt(s: Stores, t: Stores, id: string) {
    && (id in t.ledger.receipts <==> id in s.ledger.receipts)
    && (id in s.ledger.receipts ==> t.ledger.receipts[id] == s.ledger.receipts[id])
  }

  lemma {:induction false} RoomAtTurn(
    s: Stores, page: seq<AdmissionRecord>, answers: seq<Answers>, i: nat, t: Stores, event: UsageEvent)
    requires i <= |page| == |answers| && ValidEvent(event)
    requires BooksAdd(s, t, NewlyBooked(s, page, answers, i))
    ensures RoomInPage(s, page, answers, i, event) <==> HasRoom(t.ledger.rows, event, event.charges)
  {
    hide NewlyBooked, LoggedTotal, KeyOf;
    forall k | 0 <= k < |event.charges| ensures Aligned(KeyOf(event, event.charges[k])) {
      assert ValidCharge(event.charges[k]);
      KeysAreAligned(event, event.charges[k]);
    }
  }

  lemma {:induction false} TakenAtTurn(
    s: Stores, page: seq<AdmissionRecord>, answers: seq<Answers>, i: nat, t: Stores, event: UsageEvent)
    requires i <= |page| == |answers| && ValidEvent(event)
    requires BooksAdd(s, t, NewlyBooked(s, page, answers, i)) && SameReceipt(s, t, event.eventId)
    ensures TakenInPage(s, page, answers, i, event) <==> Bookable(t.ledger, t.known, event)
  {
    hide RoomInPage, HasRoom, FingerprintOf, NewlyBooked, ValidEvent;
    RoomAtTurn(s, page, answers, i, t, event);
  }

  /** One booking: the counters gain exactly the receipt when it is new and taken. */
  lemma {:induction false} BookingStep(
    s: Stores, page: seq<AdmissionRecord>, answers: seq<Answers>, i: nat, t: Stores, after: Stores)
    requires i < |page| == |answers|
    requires BooksAdd(s, t, NewlyBooked(s, page, answers, i)) && after.known == t.known
    requires after.ledger == LedgerAfter(t, AtLedger(s, page[i], answers[i]))
    requires AtLedger(s, page[i], answers[i]).Some? ==>
      && ValidEvent(AtLedger(s, page[i], answers[i]).value)
      && SameReceipt(s, t, AtLedger(s, page[i], answers[i]).value.eventId)
    ensures BooksAdd(s, after, NewlyBooked(s, page, answers, i + 1))
    ensures forall id ::
      AtLedger(s, page[i], answers[i]).None? || id != AtLedger(s, page[i], answers[i]).value.eventId ==>
      SameReceipt(t, after, id)
  {
    hide RoomInPage, FingerprintOf, AtLedger, KeyOf, ValidEvent, Bookable;
    var event := AtLedger(s, page[i], answers[i]);
    var booked := NewlyBooked(s, page, answers, i);
    assert booked + [] == booked;
    if event.Some? {
      TakenAtTurn(s, page, answers, i, t, event.value);
      BatchOfOneTakenExactly(t.ledger, t.known, event.value);
      ApplyOne(t.ledger, t.known, event.value);
      hide ApplyBatch;
      if Books(s, page, answers, i) {
        var longer := booked + [event.value];
        assert longer[..|longer| - 1] == booked;
        forall key | Aligned(key)
          ensures Row(after.ledger.rows, key) == Row(s.ledger.rows, key) + LoggedTotal(longer, key)
        {
          ChargesAdd(t.ledger.rows, event.value, key);
        }
      }
    }
  }

  lemma {:induction false} ChargesAdd(rows: map<AggregateKey, int>, event: UsageEvent, key: AggregateKey)
    requires ValidEvent(event) && Aligned(key) && AddCharges(rows, event, event.charges).Success?
    ensures Row(AddCharges(rows, event, event.charges).value, key)
      == Row(rows, key) + ChargesTotal(event, event.charges, key)
  {
    AddChargesAdds(rows, event, event.charges, key);
  }

  lemma {:induction false} LedgerAtTurn(s: Stores, page: seq<AdmissionRecord>, answers: seq<Answers>, n: nat)
    requires Readable(s) && n <= |page| == |answers| && DistinctPage(page)
    ensures var t := SweptPage(s, page[..n], answers[..n]).1;
      && BooksAdd(s, t, NewlyBooked(s, page, answers, n))
      && (forall id :: !OnPage(page[..n], id) ==> SameReceipt(s, t, id))
    decreases n
  {
    hide Readable, Recovered, AtLedger, BooksAdd, NewlyBooked, LoggedTotal;
    if n == 0 {
      StartOfPage(s, page, answers);
    } else {
      var m := n - 1;
      var id := page[m].envelope.jobId;
      var t := SweptPage(s, page[..m], answers[..m]).1;
      var after := SweptPage(s, page[..n], answers[..n]).1;
      assert page[..n][..m] == page[..m] && answers[..n][..m] == answers[..m];
      LedgerAtTurn(s, page, answers, m);
      NotEarlier(page, m);
      SweptKeepsReadable(s, page[..m], answers[..m]);
      SweepTouchesOnlyItsPage(s, page[..m], answers[..m], id);
      EntryLedger(t, page[m], answers[m]);
      RecoveredTouchesOnly(t, page[m], answers[m]);
      SameTurn(s, t, page[m], answers[m]);
      BookingStep(s, page, answers, m, t, after);
      ReceiptsOffPage(s, page, answers, m, t, after);
    }
  }

  lemma {:induction false} StartOfPage(s: Stores, page: seq<AdmissionRecord>, answers: seq<Answers>)
    requires |page| == |answers|
    ensures BooksAdd(s, SweptPage(s, page[..0], answers[..0]).1, NewlyBooked(s, page, answers, 0))
    ensures SweptPage(s, page[..0], answers[..0]).1 == s
  {
  }

  lemma {:induction false} NotEarlier(page: seq<AdmissionRecord>, m: nat)
    requires DistinctPage(page) && m < |page|
    ensures !OnPage(page[..m], page[m].envelope.jobId)
    ensures forall id :: !OnPage(page[..m + 1], id) ==> !OnPage(page[..m], id) && page[m].envelope.jobId != id
  {
    forall id | !OnPage(page[..m + 1], id) ensures !OnPage(page[..m], id) && page[m].envelope.jobId != id {
      assert page[..m + 1][m].envelope.jobId != id;
      assert forall i :: 0 <= i < m ==> page[..m][i] == page[..m + 1][i];
    }
  }

  /** An entry brings the same receipt at its turn as it would have brought first. */
  lemma {:induction false} SameTurn(s: Stores, t: Stores, ticket: AdmissionRecord, a: Answers)
    requires Readable(s)
    requires var id := ticket.envelope.jobId;
      (id in t.tickets <==> id in s.tickets) && (id in s.tickets ==> t.tickets[id] == s.tickets[id])
    ensures AtLedger(t, ticket, a) == AtLedger(s, ticket, a)
    ensures AtLedger(s, ticket, a).Some? ==>
      ValidEvent(AtLedger(s, ticket, a).value) && AtLedger(s, ticket, a).value.eventId == ticket.envelope.jobId
  {
    hide Readable, ValidEvent;
    if ticket.envelope.jobId in s.tickets { SoundHere(s, ticket.envelope.jobId); }
  }

  lemma {:induction false} ReceiptsOffPage(
    s: Stores, page: seq<AdmissionRecord>, answers: seq<Answers>, m: nat, t: Stores, after: Stores)
    requires m < |page| == |answers| && DistinctPage(page)
    requires forall id :: !OnPage(page[..m], id) ==> SameReceipt(s, t, id)
    requires AtLedger(s, page[m], answers[m]).Some? ==>
      AtLedger(s, page[m], answers[m]).value.eventId == page[m].envelope.jobId
    requires forall id ::
      AtLedger(s, page[m], answers[m]).None? || id != AtLedger(s, page[m], answers[m]).value.eventId ==>
      SameReceipt(t, after, id)
    ensures forall id :: !OnPage(page[..m + 1], id) ==> SameReceipt(s, after, id)
  {
    hide AtLedger;
    NotEarlier(page, m);
    forall id | !OnPage(page[..m + 1], id) ensures SameReceipt(s, after, id) {
      assert SameReceipt(s, t, id) && SameReceipt(t, after, id);
    }
  }

  // ----- Which settlements a sweep ends -----

  /** The settlement at position i can be closed, told from the stores before the sweep. */
  predicate Closes(s: Stores, page: seq<AdmissionRecord>, answers: seq<Answers>, i: nat, intent: SettlementIntent)
    requires i <= |page| == |answers|
  {
    && i < |page|
    && (intent.event.None? || (ValidEvent(intent.event.value) && TakenInPage(s, page, answers, i, intent.event.value)))
    && ReservationCloses(Held(s, page[i].envelope.jobId), intent.actual)
  }

  /**
   * A sweep ends a prepared settlement whose calls answer if and only if, on the stores before the sweep,
   * its reservation can be closed and its receipt either is booked already with the same charges or is
   * new, for a known subject, with room left by the receipts the page books before it. What the other
   * entries answer does not matter otherwise.
   */
  lemma {:induction false} SweepSettlesExactlyWhatItCan(
    s: Stores, page: seq<AdmissionRecord>, answers: seq<Answers>, i: nat)
    requires Readable(s) && |answers| == |page| && DistinctPage(page) && i < |page|
    requires Prepared(s, page[i]) && page[i].state.Settling? && page[i].settlement.Some? && AllAnswer(answers[i])
    ensures var id := page[i].envelope.jobId; var after := SweptPage(s, page, answers).1;
      id in after.tickets
      && (after.tickets[id].state.Terminal? <==> Closes(s, page, answers, i, page[i].settlement.value))
  {
    hide Readable, SweptPage, ReservationCloses, LedgerAccepts, TakenInPage, Bookable, ValidEvent, Sound;
    var id := page[i].envelope.jobId;
    var intent := page[i].settlement.value;
    var t := SweptPage(s, page[..i], answers[..i]).1;
    SweepSettlesAtItsTurn(s, page, answers, i);
    LedgerAtTurn(s, page, answers, i);
    NotEarlier(page, i);
    FittingIsAccepted(t, intent);
    SoundHere(s, id);
    if intent.event.Some? { TakenAtTurn(s, page, answers, i, t, intent.event.value); }
  }

  // ----- How many settlements a sweep ends -----

  /** A page read just before the sweep: each entry is the ticket as stored. */
  predicate FreshPage(s: Stores, page: seq<AdmissionRecord>) {
    && DistinctPage(page)
    && forall i :: 0 <= i < |page| ==>
         page[i].envelope.jobId in s.tickets && s.tickets[page[i].envelope.jobId] == page[i]
  }

  predicate AllAnswering(answers: seq<Answers>) {
    forall i :: 0 <= i < |answers| ==> AllAnswer(answers[i])
  }

  /** Reserved work found queued past its deadline: the sweep itself turns it into a settlement at zero. */
  predicate RunsOut(ticket: AdmissionRecord, a: Answers) {
    Queued(ticket.state) && a.now >= ticket.envelope.deadline && ticket.budgetReserved
  }

  lemma {:induction false} SettlingEntry(s: Stores, ticket: AdmissionRecord, a: Answers)
    requires Readable(s) && AllAnswer(a) && ticket.state.Settling?
    requires ticket.envelope.jobId in s.tickets && s.tickets[ticket.envelope.jobId] == ticket
    ensures var id := ticket.envelope.jobId; var after := Recovered(s, ticket, a).1;
      id in after.tickets && ticket.settlement.Some?
      && (after.tickets[id].state.Settling? <==>
            !(LedgerAccepts(s, ticket.settlement.value)
              && ReservationCloses(Held(s, id), ticket.settlement.value.actual)))
  {
    SoundHere(s, ticket.envelope.jobId);
    SettlesWhenAccepted(s, ticket, a);
    FailedReconcileKeepsTickets(s, ticket, a);
  }

  lemma {:induction false} ExpiringClaim(r: AdmissionRecord, now: real)
    requires Sound(r) && Queued(r.state) && now >= r.envelope.deadline && now >= 0.0
    ensures var claim := Claim(r.stage, now, "expiry", None);
      && !Transact(r, claim).Raised? && Sound(Applied(r, claim)) && Applied(r, claim).envelope == r.envelope
      && (r.budgetReserved ==>
            Applied(r, claim).state.Settling? && Applied(r, claim).settlement == Some(ZeroIntent(Expired)))
      && (!r.budgetReserved ==> Applied(r, claim).state.Terminal?)
  {
    TransitionKeepsRecordReadable(r, Claim(r.stage, now, "expiry", None));
  }

  lemma {:induction false} LateEntry(s: Stores, ticket: AdmissionRecord, a: Answers)
    requires Readable(s) && AllAnswer(a) && Queued(ticket.state) && a.now >= ticket.envelope.deadline
    requires ticket.envelope.jobId in s.tickets && s.tickets[ticket.envelope.jobId] == ticket
    ensures var id := ticket.envelope.jobId; var after := Recovered(s, ticket, a).1;
      id in after.tickets
      && (after.tickets[id].state.Settling? <==>
            ticket.budgetReserved && !ReservationCloses(Held(s, id), ZeroIntent(Expired).actual))
  {
    hide Sound, Transact, ReservationCloses, ReceiptFits, LedgerAccepts;
    var id := ticket.envelope.jobId;
    var claim := Claim(ticket.stage, a.now, "expiry", None);
    ExpiringClaim(ticket, a.now);
    var claimed := PutTicket(s, id, Applied(ticket, claim));
    if ticket.budgetReserved {
      hide Reconciled;
      FitsWithoutReceipt(claimed, ZeroIntent(Expired));
      SettlesWhenAccepted(claimed, claimed.tickets[id], a);
    }
  }

  lemma FitsWithoutReceipt(s: Stores, intent: SettlementIntent)
    requires intent.event.None?
    ensures LedgerAccepts(s, intent)
  {
  }

  lemma {:induction false} OtherEntry(s: Stores, ticket: AdmissionRecord, a: Answers)
    requires Readable(s) && AllAnswer(a) && !ticket.state.Settling?
    requires !(Queued(ticket.state) && a.now >= ticket.envelope.deadline)
    requires ticket.envelope.jobId in s.tickets && s.tickets[ticket.envelope.jobId] == ticket
    ensures var id := ticket.envelope.jobId; var after := Recovered(s, ticket, a).1;
      id in after.tickets && !after.tickets[id].state.Settling?
  {
    hide Sound;
  }

  /** Whether the ticket at position i is settling after the sweep, told from the stores before it. */
  predicate StaysSettling(s: Stores, page: seq<AdmissionRecord>, answers: seq<Answers>, i: nat)
    requires i < |page| == |answers|
  {
    || (page[i].state.Settling?
        && !(page[i].settlement.Some? && Closes(s, page, answers, i, page[i].settlement.value)))
    || (RunsOut(page[i], answers[i])
        && !ReservationCloses(Held(s, page[i].envelope.jobId), ZeroIntent(Expired).actual))
  }

  lemma {:induction false} EntryAfterSweep(s: Stores, page: seq<AdmissionRecord>, answers: seq<Answers>, i: nat)
    requires Readable(s) && i < |page| == |answers| && FreshPage(s, page) && AllAnswering(answers)
    ensures var id := page[i].envelope.jobId; var after := SweptPage(s, page, answers).1;
      id in after.tickets && (after.tickets[id].state.Settling? <==> StaysSettling(s, page, answers, i))
  {
    hide Readable, SweptPage, Recovered, ReservationCloses, LedgerAccepts, TakenInPage, Bookable, ValidEvent, Sound;
    var ticket := page[i];
    var id := ticket.envelope.jobId;
    var t := SweptPage(s, page[..i], answers[..i]).1;
    EveryEntryIsHandled(s, page, answers, i);
    assert t.tickets[id] == ticket;
    if ticket.state.Settling? {
      SettlingEntry(t, ticket, answers[i]);
      var intent := ticket.settlement.value;
      LedgerAtTurn(s, page, answers, i);
      NotEarlier(page, i);
      FittingIsAccepted(t, intent);
      SoundHere(s, id);
      if intent.event.Some? { TakenAtTurn(s, page, answers, i, t, intent.event.value); }
    } else if Queued(ticket.state) && answers[i].now >= ticket.envelope.deadline {
      LateEntry(t, ticket, answers[i]);
    } else {
      OtherEntry(t, ticket, answers[i]);
    }
  }

  function SettlingIds(s: Stores): set<string> {
    set id | id in s.tickets && s.tickets[id].state.Settling?
  }

  /** The settlements on the page that the sweep ends. */
  function ClosedIds(s: Stores, page: seq<AdmissionRecord>, answers: seq<Answers>): set<string>
    requires |page| == |answers|
  {
    set i | 0 <= i < |page| && page[i].state.Settling? && !StaysSettling(s, page, answers, i) :: page[i].envelope.jobId
  }

  /** The expired entries on the page that the sweep can only prepare, not settle. */
  function StrandedIds(s: Stores, page: seq<AdmissionRecord>, answers: seq<Answers>): set<string>
    requires |page| == |answers|
  {
    set i | 0 <= i < |page| && !page[i].state.Settling? && StaysSettling(s, page, answers, i) :: page[i].envelope.jobId
  }

  /**
   * A sweep of a fresh page whose calls answer changes the settling tickets by exactly two groups: the
   * closable settlements of its page end, and reserved work that ran out of time joins them when its
   * reservation cannot be closed. The count falls by the first and rises by the second.
   */
  lemma {:induction false} SweepChangesSettling(
    s: Stores, page: seq<AdmissionRecord>, answers: seq<Answers>, reclaim: Option<Reclaim>)
    requires Readable(s) && |page| == |answers| && FreshPage(s, page) && AllAnswering(answers)
    ensures var after := Swept(s, page, answers, reclaim).1;
      && SettlingIds(after) == SettlingIds(s) - ClosedIds(s, page, answers) + StrandedIds(s, page, answers)
      && |SettlingIds(after)| == |SettlingIds(s)| - |ClosedIds(s, page, answers)| + |StrandedIds(s, page, answers)|
  {
    hide Readable, SweptPage, StaysSettling, AllAnswering;
    var paged := SweptPage(s, page, answers).1;
    var closed := ClosedIds(s, page, answers);
    var stranded := StrandedIds(s, page, answers);
    forall id ensures id in SettlingIds(paged) <==> id in SettlingIds(s) - closed + stranded {
      TicketAfterSweep(s, page, answers, id);
    }
    ClosedAreSettling(s, page, answers);
    Counted(SettlingIds(s), closed, stranded);
    assert SettlingIds(paged) == SettlingIds(s) - closed + stranded;
    assert Swept(s, page, answers, reclaim).1.tickets == paged.tickets;
  }

  lemma Counted(a: set<string>, closed: set<string>, stranded: set<string>)
    requires closed <= a && a !! stranded
    ensures |a - closed + stranded| == |a| - |closed| + |stranded|
  {
    assert |a - closed| == |a| - |closed|;
    assert (a - closed) !! stranded;
  }

  lemma {:induction false} ClosedAreSettling(s: Stores, page: seq<AdmissionRecord>, answers: seq<Answers>)
    requires |page| == |answers| && FreshPage(s, page)
    ensures ClosedIds(s, page, answers) <= SettlingIds(s)
    ensures SettlingIds(s) !! StrandedIds(s, page, answers)
  {
    hide StaysSettling;
  }

  lemma {:induction false} TicketAfterSweep(
    s: Stores, page: seq<AdmissionRecord>, answers: seq<Answers>, id: string)
    requires Readable(s) && |page| == |answers| && FreshPage(s, page) && AllAnswering(answers)
    ensures id in SettlingIds(SweptPage(s, page, answers).1) <==>
      id in SettlingIds(s) - ClosedIds(s, page, answers) + StrandedIds(s, page, answers)
  {
    hide Readable, SweptPage, StaysSettling, AllAnswering;
    if OnPage(page, id) {
      var i :| 0 <= i < |page| && page[i].envelope.jobId == id;
      EntryAfterSweep(s, page, answers, i);
      OnlyEntry(s, page, answers, i);
    } else {
      SweepTouchesOnlyItsPage(s, page, answers, id);
      assert id !in ClosedIds(s, page, answers) && id !in StrandedIds(s, page, answers);
    }
  }

  lemma {:induction false} OnlyEntry(s: Stores, page: seq<AdmissionRecord>, answers: seq<Answers>, i: nat)
    requires i < |page| == |answers| && DistinctPage(page)
    ensures page[i].envelope.jobId in ClosedIds(s, page, answers) <==>
      page[i].state.Settling? && !StaysSettling(s, page, answers, i)
    ensures page[i].envelope.jobId in StrandedIds(s, page, answers) <==>
      !page[i].state.Settling? && StaysSettling(s, page, answers, i)
  {
    hide StaysSettling;
    var id := page[i].envelope.jobId;
    if id in ClosedIds(s, page, answers) {
      var j :| 0 <= j < |page| && page[j].state.Settling? && !StaysSettling(s, page, answers, j)
        && page[j].envelope.jobId == id;
      assert j == i;
    }
    if id in StrandedIds(s, page, answers) {
      var j :| 0 <= j < |page| && !page[j].state.Settling? && StaysSettling(s, page, answers, j)
        && page[j].envelope.jobId == id;
      assert j == i;
    }
  }

  // ----- Draining -----

  /** Dependencies have recovered: the page is fresh, calls answer, and everything it must settle can be. */
  predicate Recovering(s: Stores, sweep: Sweep) {
    && |sweep.page| == |sweep.answers| && FreshPage(s, sweep.page) && AllAnswering(sweep.answers)
    && forall i :: 0 <= i < |sweep.page| ==> !StaysSettling(s, sweep.page, sweep.answers, i)
  }

  predicate AllRecovering(s: Stores, sweeps: seq<Sweep>)
    decreases |sweeps|
  {
    sweeps == [] ||
    (&& Recovering(s, sweeps[0])
     && AllRecovering(Swept(s, sweeps[0].page, sweeps[0].answers, sweeps[0].reclaim).1, sweeps[1..]))
  }

  /** Each settling ticket comes up on some page. */
  predicate Covered(s: Stores, sweeps: seq<Sweep>) {
    forall id :: id in SettlingIds(s) ==> exists k :: 0 <= k < |sweeps| && OnPage(sweeps[k].page, id)
  }

  lemma {:induction false} RecoveringSweepClears(s: Stores, sweep: Sweep)
    requires Readable(s) && Recovering(s, sweep)
    ensures var after := Swept(s, sweep.page, sweep.answers, sweep.reclaim).1;
      && Readable(after)
      && SettlingIds(after) <= SettlingIds(s)
      && (forall id :: id in SettlingIds(after) ==> !OnPage(sweep.page, id))
      && |SettlingIds(after)| == |SettlingIds(s)| - |ClosedIds(s, sweep.page, sweep.answers)|
  {
    hide Readable, SweptPage, StaysSettling, AllAnswering, FreshPage, Reclaimed;
    var paged := SweptPage(s, sweep.page, sweep.answers).1;
    SweepChangesSettling(s, sweep.page, sweep.answers, sweep.reclaim);
    SweptKeepsReadable(s, sweep.page, sweep.answers);
    if sweep.reclaim.Some? { ReclaimKeepsReadable(paged, sweep.reclaim.value); }
    assert StrandedIds(s, sweep.page, sweep.answers) == {};
    forall id | id in SettlingIds(s) && OnPage(sweep.page, id) ensures id in ClosedIds(s, sweep.page, sweep.answers) {
      var i :| 0 <= i < |sweep.page| && sweep.page[i].envelope.jobId == id;
      FreshEntry(s, sweep.page, i);
    }
  }

  lemma FreshEntry(s: Stores, page: seq<AdmissionRecord>, i: nat)
    requires FreshPage(s, page) && i < |page|
    ensures page[i].envelope.jobId in s.tickets && s.tickets[page[i].envelope.jobId] == page[i]
  {
  }

  /**
   * Once dependencies have recovered, sweeps that between them cover every settling ticket leave none:
   * the count of settling tickets falls with each sweep by the settlements on its page and reaches zero.
   */
  lemma {:induction false} RecoveringSweepsDrain(s: Stores, sweeps: seq<Sweep>)
    requires Readable(s) && PairedSweeps(sweeps) && AllRecovering(s, sweeps) && Covered(s, sweeps)
    ensures SettlingIds(SweptAll(s, sweeps)) == {}
    decreases |sweeps|
  {
    hide Readable, Recovering, Swept;
    if sweeps != [] {
      var next := Swept(s, sweeps[0].page, sweeps[0].answers, sweeps[0].reclaim).1;
      RecoveringSweepClears(s, sweeps[0]);
      forall id | id in SettlingIds(next)
        ensures exists k :: 0 <= k < |sweeps[1..]| && OnPage(sweeps[1..][k].page, id)
      {
        var k :| 0 <= k < |sweeps| && OnPage(sweeps[k].page, id);
        assert sweeps[1..][k - 1] == sweeps[k];
      }
      RecoveringSweepsDrain(next, sweeps[1..]);
    }
  }

  /** A settlement off the page stays closable, unless its reservation is reclaimed as stale meanwhile. */
  lemma {:induction false} OffPageStaysClosable(s: Stores, sweep: Sweep, id: string, actual: seq<UnitAmount>)
    requires Readable(s) && |sweep.page| == |sweep.answers| && !OnPage(sweep.page, id)
    requires ReservationCloses(Held(s, id), actual) && actual != []
    ensures var after := Swept(s, sweep.page, sweep.answers, sweep.reclaim).1;
      ReservationCloses(Held(after, id), actual) <==>
        !Reclaims(Held(s, id), id, sweep.reclaim)
  {
    hide Readable, SweptPage, Amounts, WithinEstimates;
    SweepTouchesOnlyItsPage(s, sweep.page, sweep.answers, id);
  }
}
