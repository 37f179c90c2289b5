/**
 * Once every backend answers again: conditions on the stores as they are found, under which sweeps that
 * between them list every settling ticket leave none, whatever the order and size of their pages.
 */
module RecoveryDraining {
  import opened Wrappers
  import opened Usage
  import opened Jobs
  import opened AdmissionState
  import opened Budgets
  import opened UsageLedger
  import opened LedgerBatches
  import opened WorkerLifecycle
  import opened RecoveryProgress

  // ----- Conditions on the stores before the first sweep -----

  /** What settling this ticket will ask of its reservation, if it comes to that. */
  function Owes(r: AdmissionRecord): Option<seq<UnitAmount>> {
    if r.state.Settling? && r.settlement.Some? then Some(r.settlement.value.actual)
    else if Queued(r.state) && r.budgetReserved then Some(ZeroIntent(Expired).actual)
    else None
  }

  /** The reservation closes at these amounts, and no sweep reclaims it. */
  predicate StaysClosable(held: Option<Reservation>, id: string, actual: seq<UnitAmount>, sweeps: seq<Sweep>) {
    ReservationCloses(held, actual) && forall k :: 0 <= k < |sweeps| ==> !Reclaims(held, id, sweeps[k].reclaim)
  }

  predicate ReservationsClose(s: Stores, sweeps: seq<Sweep>) {
    forall id :: id in s.tickets && Owes(s.tickets[id]).Some? ==>
      StaysClosable(Held(s, id), id, Owes(s.tickets[id]).value, sweeps)
  }

  /** All these receipts together still fit every counter. */
  ghost predicate JointRoom(rows: map<AggregateKey, int>, owed: seq<UsageEvent>) {
    forall key :: Aligned(key) ==> Row(rows, key) + LoggedTotal(owed, key) <= MAX_ACCOUNTING_INTEGER
  }

  /** The receipt is booked already with the same charges, or it is among those owed and its subject is known. */
  predicate BookedOrOwed(s: Stores, owed: seq<UsageEvent>, event: UsageEvent) {
    if event.eventId in s.ledger.receipts then s.ledger.receipts[event.eventId] == FingerprintOf(event)
    else event in owed && event.subject in s.known
  }

  ghost predicate ReceiptsFit(s: Stores, owed: seq<UsageEvent>) {
    && AllValid(owed) && JointRoom(s.ledger.rows, owed)
    && forall id ::
         id in SettlingIds(s) && s.tickets[id].settlement.Some? && s.tickets[id].settlement.value.event.Some? ==>
         BookedOrOwed(s, owed, s.tickets[id].settlement.value.event.value)
  }

  /** Each page lists tickets as stored when its sweep starts, and its calls answer. */
  predicate ReadFresh(s: Stores, sweeps: seq<Sweep>)
    requires PairedSweeps(sweeps)
    decreases |sweeps|
  {
    sweeps == [] ||
    (&& FreshPage(s, sweeps[0].page) && AllAnswering(sweeps[0].answers)
     && ReadFresh(Swept(s, sweeps[0].page, sweeps[0].answers, sweeps[0].reclaim).1, sweeps[1..]))
  }

  // ----- Totals -----

  /** The receipts of tickets that are not on the page. */
  function Without(owed: seq<UsageEvent>, page: seq<AdmissionRecord>): seq<UsageEvent> {
    if owed == [] then []
    else
      var last := owed[|owed| - 1];
      var rest := Without(owed[..|owed| - 1], page);
      if OnPage(page, last.eventId) then rest else rest + [last]
  }

  lemma {:induction false} WithoutKeeps(owed: seq<UsageEvent>, page: seq<AdmissionRecord>)
    ensures forall e :: e in Without(owed, page) <==> e in owed && !OnPage(page, e.eventId)
  {
    hide OnPage;
    if owed != [] {
      WithoutKeeps(owed[..|owed| - 1], page);
      assert owed == owed[..|owed| - 1] + [owed[|owed| - 1]];
    }
  }

  /** Distinct receipts from the page and all receipts off the page weigh no more than the whole list. */
  lemma {:induction false} PartsFit(
    booked: seq<UsageEvent>, owed: seq<UsageEvent>, page: seq<AdmissionRecord>, key: AggregateKey)
    requires AllValid(owed) && DistinctIds(booked)
    requires forall i :: 0 <= i < |booked| ==> booked[i] in owed && OnPage(page, booked[i].eventId)
    ensures LoggedTotal(booked, key) + LoggedTotal(Without(owed, page), key) <= LoggedTotal(owed, key)
    decreases |owed|
  {
    hide OnPage, ValidEvent;
    if owed != [] {
      var shorter := owed[..|owed| - 1];
      var last := owed[|owed| - 1];
      assert owed == shorter + [last];
      ChargesArePositive(last);
      TotalsAreNatural(last, last.charges, key);
      if !OnPage(page, last.eventId) {
        PartsFit(booked, shorter, page, key);
        assert (Without(shorter, page) + [last])[..|Without(shorter, page)|] == Without(shorter, page);
      } else if i :| 0 <= i < |booked| && booked[i] == last {
        var rest := booked[..i] + booked[i + 1..];
        LoggedTotalRemove(booked, i, key);
        PartsFit(rest, shorter, page, key);
      } else {
        PartsFit(booked, shorter, page, key);
      }
    }
  }

  // ----- One sweep under the conditions -----

  /** Only settling tickets of a fresh page bring receipts, and each brings its own. */
  lemma {:induction false} FreshReceipt(s: Stores, page: seq<AdmissionRecord>, answers: seq<Answers>, i: nat)
    requires Readable(s) && i < |page| == |answers| && FreshPage(s, page)
    ensures var event := AtLedger(s, page[i], answers[i]);
      event.Some? ==>
        && page[i].envelope.jobId in SettlingIds(s)
        && page[i].settlement.Some? && event == page[i].settlement.value.event
        && s.tickets[page[i].envelope.jobId] == page[i]
        && ValidEvent(event.value) && event.value.eventId == page[i].envelope.jobId
  {
    hide ValidEvent, Readable;
    SoundHere(s, page[i].envelope.jobId);
  }

  /** What the page books comes from the list, each ticket's receipt once. */
  lemma {:induction false} BookedAreOwed(
    s: Stores, page: seq<AdmissionRecord>, answers: seq<Answers>, owed: seq<UsageEvent>, n: nat)
    requires Readable(s) && n <= |page| == |answers| && FreshPage(s, page) && ReceiptsFit(s, owed)
    ensures var booked := NewlyBooked(s, page, answers, n);
      && DistinctIds(booked)
      && (forall k :: 0 <= k < |booked| ==> booked[k] in owed && OnPage(page[..n], booked[k].eventId))
    decreases n
  {
    hide Readable, AtLedger, ValidEvent, RoomInPage, JointRoom, AllValid, FingerprintOf;
    if n > 0 {
      BookedAreOwed(s, page, answers, owed, n - 1);
      FreshReceipt(s, page, answers, n - 1);
      NotEarlier(page, n - 1);
      assert page[..n][n - 1] == page[n - 1];
      forall id | OnPage(page[..n - 1], id) ensures OnPage(page[..n], id) {
        var j :| 0 <= j < n - 1 && page[..n - 1][j].envelope.jobId == id;
        assert page[..n][j] == page[..n - 1][j];
      }
    }
  }

  lemma OnWholePage(page: seq<AdmissionRecord>, n: nat, id: string)
    requires n <= |page| && OnPage(page[..n], id)
    ensures OnPage(page, id)
  {
    var j :| 0 <= j < n && page[..n][j].envelope.jobId == id;
    assert page[j].envelope.jobId == id;
  }

  /** Adding one more receipt of the page to those already booked still fits its counters. */
  lemma {:induction false} RoomIsLeft(
    s: Stores, page: seq<AdmissionRecord>, answers: seq<Answers>, owed: seq<UsageEvent>, i: nat, event: UsageEvent)
    requires Readable(s) && i < |page| == |answers| && FreshPage(s, page) && ReceiptsFit(s, owed)
    requires event in owed && ValidEvent(event) && event.eventId == page[i].envelope.jobId
    ensures RoomInPage(s, page, answers, i, event)
  {
    var booked := NewlyBooked(s, page, answers, i);
    var longer := booked + [event];
    BookedAreOwed(s, page, answers, owed, i);
    NotEarlier(page, i);
    ChargesArePositive(event);
    forall k | 0 <= k < |event.charges|
      ensures Row(s.ledger.rows, KeyOf(event, event.charges[k])) + LoggedTotal(booked, KeyOf(event, event.charges[k]))
        <= MAX_ACCOUNTING_INTEGER - event.charges[k].amount
    {
      var key := KeyOf(event, event.charges[k]);
      assert ValidCharge(event.charges[k]);
      KeysAreAligned(event, event.charges[k]);
      ChargeCountsForItsKey(event, event.charges[k], key);
      hide NewlyBooked, Readable, FreshPage, ValidEvent, KeyOf;
      TotalsAreNatural(event, event.charges, key);
      assert longer[..|longer| - 1] == booked;
      forall j | 0 <= j < |longer| ensures longer[j] in owed && OnPage(page, longer[j].eventId) {
        if j < |booked| { OnWholePage(page, i, longer[j].eventId); }
      }
      PartsFit(longer, owed, page, key);
      WithoutIsValid(owed, page);
      NaturalTotal(Without(owed, page), key);
    }
  }

  lemma {:induction false} WithoutIsValid(owed: seq<UsageEvent>, page: seq<AdmissionRecord>)
    requires AllValid(owed)
    ensures AllValid(Without(owed, page))
  {
    hide ValidEvent;
    var rest := Without(owed, page);
    WithoutKeeps(owed, page);
    forall i | 0 <= i < |rest| ensures ValidEvent(rest[i]) {
      assert rest[i] in owed;
    }
  }

  /** Everything the sweep has to settle on its page can be settled. */
  lemma {:induction false} SweepRecovers(s: Stores, sweep: Sweep, sweeps: seq<Sweep>, owed: seq<UsageEvent>)
    requires Readable(s) && |sweep.page| == |sweep.answers| && FreshPage(s, sweep.page) && AllAnswering(sweep.answers)
    requires ReservationsClose(s, sweeps) && ReceiptsFit(s, owed)
    ensures Recovering(s, sweep)
  {
    hide ReservationCloses, RoomInPage, AtLedger, ValidEvent, FingerprintOf, JointRoom, Reclaims;
    forall i | 0 <= i < |sweep.page| ensures !StaysSettling(s, sweep.page, sweep.answers, i) {
      var ticket := sweep.page[i];
      FreshEntry(s, sweep.page, i);
      SoundHere(s, ticket.envelope.jobId);
      if ticket.state.Settling? && ticket.settlement.value.event.Some? {
        assert ticket.envelope.jobId in SettlingIds(s);
        var event := ticket.settlement.value.event.value;
        if event.eventId !in s.ledger.receipts {
          RoomIsLeft(s, sweep.page, sweep.answers, owed, i, event);
        }
      }
    }
  }

  // ----- What a sweep leaves of the conditions -----

  /** A ticket that still owes after its turn owed before, and its reservation was not touched. */
  lemma {:induction false} OwingAfterTurn(s: Stores, ticket: AdmissionRecord, a: Answers)
    requires Readable(s) && ticket.envelope.jobId in s.tickets && s.tickets[ticket.envelope.jobId] == ticket
    requires AllAnswer(a)
    ensures var id := ticket.envelope.jobId; var after := Recovered(s, ticket, a).1;
      id in after.tickets
      && (Queued(after.tickets[id].state) && after.tickets[id].budgetReserved ==>
            Queued(ticket.state) && ticket.budgetReserved && Held(after, id) == Held(s, id))
  {
    hide Sound, Reconciled, ExpiredEntry;
    SoundHere(s, ticket.envelope.jobId);
    if ticket.state.Settling? { SettlingEntryEnds(s, ticket, a); }
    else if Queued(ticket.state) && a.now >= ticket.envelope.deadline { OverdueEntryEnds(s, ticket, a); }
  }

  lemma {:induction false} SettlingEntryEnds(s: Stores, ticket: AdmissionRecord, a: Answers)
    requires Readable(s) && ticket.envelope.jobId in s.tickets && s.tickets[ticket.envelope.jobId] == ticket
    requires ticket.state.Settling?
    ensures var id := ticket.envelope.jobId; var after := Recovered(s, ticket, a).1;
      id in after.tickets && !Queued(after.tickets[id].state)
  {
    hide Sound, Recovered;
    RecoveredEvolves(s, ticket, a);
    NeverQueuedAgain(ticket, Recovered(s, ticket, a).1.tickets[ticket.envelope.jobId]);
  }

  lemma {:induction false} OverdueEntryEnds(s: Stores, ticket: AdmissionRecord, a: Answers)
    requires Readable(s) && ticket.envelope.jobId in s.tickets && s.tickets[ticket.envelope.jobId] == ticket
    requires Queued(ticket.state) && a.now >= ticket.envelope.deadline && AllAnswer(a)
    ensures var id := ticket.envelope.jobId; var after := ExpiredEntry(s, ticket, a).1;
      id in after.tickets && !Queued(after.tickets[id].state)
  {
    hide Sound, Reconciled, Transact, OneTransaction;
    var id := ticket.envelope.jobId;
    var claim := Claim(ticket.stage, a.now, "expiry", None);
    ExpiringClaim(ticket, a.now);
    var claimed := PutTicket(s, id, Applied(ticket, claim));
    if ticket.budgetReserved {
      ReconciledEvolves(claimed, claimed.tickets[id], a);
      NeverQueuedAgain(claimed.tickets[id], Reconciled(claimed, claimed.tickets[id], a).1.tickets[id]);
    }
  }

  lemma NeverQueuedAgain(r: AdmissionRecord, after: AdmissionRecord)
    requires r.state.Settling? && OneTransaction(r, after)
    ensures !Queued(after.state)
  {
  }

  /** The reservation after the page is the one its own entry leaves. */
  lemma {:induction false} HeldAfterPage(s: Stores, page: seq<AdmissionRecord>, answers: seq<Answers>, i: nat)
    requires Readable(s) && |answers| == |page| && DistinctPage(page) && i < |page|
    ensures var id := page[i].envelope.jobId;
      Held(SweptPage(s, page, answers).1, id)
      == Held(Recovered(SweptPage(s, page[..i], answers[..i]).1, page[i], answers[i]).1, id)
    decreases |page|
  {
    hide Recovered, Readable;
    var last := |page| - 1;
    SweptKeepsReadable(s, page[..last], answers[..last]);
    RecoveredTouchesOnly(SweptPage(s, page[..last], answers[..last]).1, page[last], answers[last]);
    if i < last {
      assert page[..last][..i] == page[..i] && answers[..last][..i] == answers[..i];
      HeldAfterPage(s, page[..last], answers[..last], i);
    }
  }

  /** A ticket that owes after the page owed the same before, and its reservation is as it was. */
  lemma {:induction false} OwingAfterPage(s: Stores, sweep: Sweep, id: string)
    requires Readable(s) && Recovering(s, sweep)
    requires var after := SweptPage(s, sweep.page, sweep.answers).1;
      id in after.tickets && Owes(after.tickets[id]).Some?
    ensures var after := SweptPage(s, sweep.page, sweep.answers).1;
      && id in s.tickets && Owes(s.tickets[id]) == Owes(after.tickets[id]) && Held(after, id) == Held(s, id)
  {
    hide Readable, SweptPage, StaysSettling, AllAnswer, Recovered;
    if OnPage(sweep.page, id) {
      var i :| 0 <= i < |sweep.page| && sweep.page[i].envelope.jobId == id;
      FreshEntry(s, sweep.page, i);
      EntryAfterSweep(s, sweep.page, sweep.answers, i);
      EveryEntryIsHandled(s, sweep.page, sweep.answers, i);
      HeldAfterPage(s, sweep.page, sweep.answers, i);
      OwingAfterTurn(SweptPage(s, sweep.page[..i], sweep.answers[..i]).1, sweep.page[i], sweep.answers[i]);
    } else {
      SweepTouchesOnlyItsPage(s, sweep.page, sweep.answers, id);
    }
  }

  lemma {:induction false} ReservationsStillClose(s: Stores, sweeps: seq<Sweep>)
    requires sweeps != [] && Readable(s) && Recovering(s, sweeps[0]) && ReservationsClose(s, sweeps)
    ensures ReservationsClose(Swept(s, sweeps[0].page, sweeps[0].answers, sweeps[0].reclaim).1, sweeps[1..])
  {
    hide Readable, SweptPage, Owes, ReservationCloses, StaysSettling, FreshPage, AllAnswer;
    var sweep := sweeps[0];
    var paged := SweptPage(s, sweep.page, sweep.answers).1;
    var after := Swept(s, sweep.page, sweep.answers, sweep.reclaim).1;
    forall id | id in after.tickets && Owes(after.tickets[id]).Some?
      ensures StaysClosable(Held(after, id), id, Owes(after.tickets[id]).value, sweeps[1..])
    {
      OwingAfterPage(s, sweep, id);
      assert !Reclaims(Held(s, id), id, sweeps[0].reclaim);
      NotReclaimed(paged, sweep.reclaim, id);
      assert Held(after, id) == Held(s, id);
      assert forall k :: 0 <= k < |sweeps[1..]| ==> sweeps[1..][k] == sweeps[k + 1];
    }
  }

  lemma NotReclaimed(s: Stores, reclaim: Option<Reclaim>, id: string)
    requires !Reclaims(Held(s, id), id, reclaim)
    ensures reclaim.Some? ==> Held(Reclaimed(s, reclaim.value), id) == Held(s, id)
  {
  }

  lemma {:induction false} ReceiptsStillFit(s: Stores, sweep: Sweep, owed: seq<UsageEvent>)
    requires Readable(s) && Recovering(s, sweep) && ReceiptsFit(s, owed)
    ensures ReceiptsFit(Swept(s, sweep.page, sweep.answers, sweep.reclaim).1, Without(owed, sweep.page))
  {
    var page := sweep.page;
    var n := |page|;
    var paged := SweptPage(s, page, sweep.answers).1;
    var after := Swept(s, page, sweep.answers, sweep.reclaim).1;
    var booked := NewlyBooked(s, page, sweep.answers, n);
    assert page[..n] == page && sweep.answers[..n] == sweep.answers;
    LedgerAtTurn(s, page, sweep.answers, n);
    BookedAreOwed(s, page, sweep.answers, owed, n);
    WithoutIsValid(owed, page);
    WithoutKeeps(owed, page);
    RecoveringSweepClears(s, sweep);
    assert after.ledger == paged.ledger && after.tickets == paged.tickets && after.known == paged.known;
    hide Readable, SweptPage, Recovering, NewlyBooked, Swept, AllValid, FingerprintOf;
    forall key | Aligned(key)
      ensures Row(after.ledger.rows, key) + LoggedTotal(Without(owed, page), key) <= MAX_ACCOUNTING_INTEGER
    {
      PartsFit(booked, owed, page, key);
    }
    forall id | id in SettlingIds(after) && after.tickets[id].settlement.Some?
        && after.tickets[id].settlement.value.event.Some?
      ensures BookedOrOwed(after, Without(owed, page), after.tickets[id].settlement.value.event.value)
    {
      SweepTouchesOnlyItsPage(s, page, sweep.answers, id);
      SoundHere(s, id);
    }
  }

  // ----- Draining -----

  /**
   * Once every call answers again, sweeps of freshly read pages that between them list every settling ticket
   * leave none settling, if on the stores as found each reservation that may be asked for closes and is not
   * reclaimed meanwhile, and each receipt is booked already or is new, for a known subject, with room for
   * all owed receipts together. What earlier sweeps do is not assumed: it follows.
   */
  lemma {:induction false} RecoveryDrains(s: Stores, sweeps: seq<Sweep>, owed: seq<UsageEvent>)
    requires Readable(s) && PairedSweeps(sweeps) && ReadFresh(s, sweeps) && Covered(s, sweeps)
    requires ReservationsClose(s, sweeps) && ReceiptsFit(s, owed)
    ensures SettlingIds(SweptAll(s, sweeps)) == {}
  {
    SweepsRecover(s, sweeps, owed);
    RecoveringSweepsDrain(s, sweeps);
  }

  /** The conditions carry over from sweep to sweep. */
  lemma {:induction false} SweepsRecover(s: Stores, sweeps: seq<Sweep>, owed: seq<UsageEvent>)
    requires Readable(s) && PairedSweeps(sweeps) && ReadFresh(s, sweeps)
    requires ReservationsClose(s, sweeps) && ReceiptsFit(s, owed)
    ensures AllRecovering(s, sweeps)
    decreases |sweeps|
  {
    hide Readable, Recovering, Swept, ReservationsClose, ReceiptsFit;
    if sweeps != [] {
      var sweep := sweeps[0];
      SweepRecovers(s, sweep, sweeps, owed);
      RecoveringSweepClears(s, sweep);
      ReservationsStillClose(s, sweeps);
      ReceiptsStillFit(s, sweep, owed);
      SweepsRecover(
        Swept(s, sweep.page, sweep.answers, sweep.reclaim).1, sweeps[1..], Without(owed, sweep.page));
    }
  }
}
