/** Whole batches: taken together exactly when every receipt agrees and all fresh charges have room, else not at all. */
module LedgerBatches {
  import opened Wrappers
  import opened Usage
  import opened UsageLedger

  // ----- Totals -----

  lemma {:induction false} TotalsAreNatural(event: UsageEvent, charges: seq<UsageCharge>, key: AggregateKey)
    requires forall i :: 0 <= i < |charges| ==> charges[i].amount > 0
    ensures ChargesTotal(event, charges, key) >= 0
    ensures forall i :: 0 <= i < |charges| && Counts(event, charges[i], key) ==>
      ChargesTotal(event, charges, key) >= charges[i].amount
    decreases |charges|
  {
    if charges != [] {
      TotalsAreNatural(event, charges[1..], key);
      forall i | 0 <= i < |charges| && Counts(event, charges[i], key)
        ensures ChargesTotal(event, charges, key) >= charges[i].amount
      {
        if i > 0 { assert charges[i] == charges[1..][i - 1]; }
      }
    }
  }

  lemma ChargesArePositive(event: UsageEvent)
    requires ValidEvent(event)
    ensures forall i :: 0 <= i < |event.charges| ==> event.charges[i].amount > 0
  {
  }

  lemma {:induction false} NaturalTotal(log: seq<UsageEvent>, key: AggregateKey)
    requires AllValid(log)
    ensures LoggedTotal(log, key) >= 0
  {
    hide ValidEvent;
    if log != [] {
      var last := log[|log| - 1];
      NaturalTotal(log[..|log| - 1], key);
      ChargesArePositive(last);
      TotalsAreNatural(last, last.charges, key);
    }
  }

  lemma {:induction false} TotalOfCons(event: UsageEvent, rest: seq<UsageEvent>, key: AggregateKey)
    ensures LoggedTotal([event] + rest, key) == ChargesTotal(event, event.charges, key) + LoggedTotal(rest, key)
    decreases |rest|
  {
    var all := [event] + rest;
    if rest == [] {
      assert all[..0] == [] && all == [event];
    } else {
      assert all[..|all| - 1] == [event] + rest[..|rest| - 1];
      TotalOfCons(event, rest[..|rest| - 1], key);
    }
  }

  // ----- When a batch is taken -----

  /** Receipts agree: with those booked already, and within the batch. */
  predicate Agrees(receipts: map<string, Fingerprint>, events: seq<UsageEvent>) {
    && (forall e :: e in events && e.eventId in receipts ==> receipts[e.eventId] == FingerprintOf(e))
    && (forall e, f :: e in events && f in events && e.eventId == f.eventId ==> FingerprintOf(e) == FingerprintOf(f))
  }

  /** New events charge subjects that exist. */
  predicate KnownSubjects(receipts: map<string, Fingerprint>, known: set<AccountingSubject>, events: seq<UsageEvent>) {
    forall e :: e in events && e.eventId !in receipts ==> e.subject in known
  }

  /** Every counter that the new events touch has room for all of them. */
  ghost predicate FitsAll(rows: map<AggregateKey, int>, log: seq<UsageEvent>) {
    forall key :: Aligned(key) && LoggedTotal(log, key) > 0 ==>
      Row(rows, key) + LoggedTotal(log, key) <= MAX_ACCOUNTING_INTEGER
  }

  ghost predicate MayApply(ledger: Ledger, known: set<AccountingSubject>, events: seq<UsageEvent>) {
    && Agrees(ledger.receipts, events) && KnownSubjects(ledger.receipts, known, events)
    && FitsAll(ledger.rows, FreshEvents(ledger.receipts.Keys, events))
  }

  lemma {:induction false} ChargesStayCountable(
    rows: map<AggregateKey, int>, event: UsageEvent, charges: seq<UsageCharge>, key: AggregateKey)
    requires Chargeable(event, charges) && AddCharges(rows, event, charges).Success?
    requires forall i :: 0 <= i < |charges| ==> charges[i].amount <= MAX_ACCOUNTING_INTEGER
    ensures var after := AddCharges(rows, event, charges).value;
      Row(after, key) != Row(rows, key) ==> Row(after, key) <= MAX_ACCOUNTING_INTEGER
    decreases |charges|
  {
    if charges != [] {
      ChargesStayCountable(AddCharge(rows, event, charges[0]).value, event, charges[1..], key);
    }
  }

  /** The first new event has room and leaves room for the rest exactly when all have room together. */
  lemma {:induction false} FirstThenRest(rows: map<AggregateKey, int>, event: UsageEvent, rest: seq<UsageEvent>)
    requires ValidEvent(event) && AllValid(rest)
    ensures FitsAll(rows, [event] + rest) <==>
      var added := AddCharges(rows, event, event.charges);
      added.Success? && FitsAll(added.value, rest)
  {
    hide ValidEvent, AllValid;
    EventIsChargeable(event);
    var added := AddCharges(rows, event, event.charges);
    ChargesFitExactly(rows, event, event.charges);
    if FitsAll(rows, [event] + rest) {
      forall k | 0 <= k < |event.charges|
        ensures Row(rows, KeyOf(event, event.charges[k])) <= MAX_ACCOUNTING_INTEGER - event.charges[k].amount
      {
        ChargeWeighs(event, k, rest);
      }
      assert added.Success?;
    }
    if added.Success? {
      forall key | Aligned(key)
        ensures Row(added.value, key) == Row(rows, key) + ChargesTotal(event, event.charges, key)
        ensures ChargesTotal(event, event.charges, key) >= 0 && LoggedTotal(rest, key) >= 0
        ensures ChargesTotal(event, event.charges, key) > 0 ==> Row(added.value, key) <= MAX_ACCOUNTING_INTEGER
        ensures LoggedTotal([event] + rest, key) == ChargesTotal(event, event.charges, key) + LoggedTotal(rest, key)
      {
        AddChargesAdds(rows, event, event.charges, key);
        ChargesArePositive(event);
        TotalsAreNatural(event, event.charges, key);
        NaturalTotal(rest, key);
        TotalOfCons(event, rest, key);
        ChargesStayCountable(rows, event, event.charges, key);
      }
    }
  }

  lemma EventIsChargeable(event: UsageEvent)
    requires ValidEvent(event)
    ensures Chargeable(event, event.charges) && DistinctDimensions(event.charges)
    ensures forall i :: 0 <= i < |event.charges| ==> 0 < event.charges[i].amount <= MAX_ACCOUNTING_INTEGER
  {
  }

  lemma {:induction false} ChargeWeighs(event: UsageEvent, k: nat, rest: seq<UsageEvent>)
    requires ValidEvent(event) && AllValid(rest) && k < |event.charges|
    ensures Chargeable(event, event.charges)
    ensures var key := KeyOf(event, event.charges[k]);
      Aligned(key) && LoggedTotal([event] + rest, key) >= event.charges[k].amount > 0
  {
    hide AllValid;
    EventIsChargeable(event);
    var key := KeyOf(event, event.charges[k]);
    WindowsPartitionTime(event.charges[k].window, event.occurredAt, key.start);
    KeyIsAligned(event, event.charges[k]);
    ChargeCountsForItsKey(event, event.charges[k], key);
    TotalsAreNatural(event, event.charges, key);
    NaturalTotal(rest, key);
    TotalOfCons(event, rest, key);
  }

  lemma {:induction false} KeyIsAligned(event: UsageEvent, charge: UsageCharge)
    requires ValidWindow(charge.window) && event.occurredAt >= 0
    ensures Aligned(KeyOf(event, charge))
  {
    var n := charge.window.seconds;
    var start := WindowStart(charge.window, event.occurredAt);
    WindowsPartitionTime(charge.window, event.occurredAt, start);
    if event.occurredAt < n { assert event.occurredAt % n == event.occurredAt; }
    else { assert event.occurredAt % n < n; }
  }

  lemma {:induction false} FreshAreValid(seen: set<string>, events: seq<UsageEvent>)
    requires AllValid(events)
    ensures AllValid(FreshEvents(seen, events))
    decreases |events|
  {
    hide ValidEvent;
    if events != [] {
      FreshAreValid(if events[0].eventId in seen then seen else seen + {events[0].eventId}, events[1..]);
    }
  }

  /** Applying events in order succeeds exactly when they may be applied together. */
  lemma {:induction false} AppliesExactly(ledger: Ledger, known: set<AccountingSubject>, events: seq<UsageEvent>)
    requires AllValid(events)
    ensures ApplyEvents(ledger, known, events).Success? <==> MayApply(ledger, known, events)
    decreases |events|
  {
    hide ValidEvent, FingerprintOf, AddCharges, FitsAll;
    if events == [] {
      NothingFits(ledger.rows);
    } else {
      var event, rest := events[0], events[1..];
      assert events == [event] + rest;
      match ClaimReceipt(ledger.receipts, event) {
        case ReplayedReceipt => AppliesExactly(ledger, known, rest);
        case ConflictingReceipt =>
        case FreshReceipt =>
          var receipts := ledger.receipts[event.eventId := FingerprintOf(event)];
          FreshAreValid(receipts.Keys, rest);
          assert receipts.Keys == ledger.receipts.Keys + {event.eventId};
          FirstThenRest(ledger.rows, event, FreshEvents(receipts.Keys, rest));
          SameIdentitySameSubject(ledger.receipts, event, rest);
          EventIsChargeable(event);
          var added := AddCharges(ledger.rows, event, event.charges);
          if added.Success? { AppliesExactly(Ledger(receipts, added.value), known, rest); }
      }
    }
  }

  lemma NothingFits(rows: map<AggregateKey, int>)
    ensures FitsAll(rows, [])
  {
  }

  /** Agreeing after the first event is booked is agreeing with it; a repetition has its subject. */
  lemma {:induction false} SameIdentitySameSubject(
    receipts: map<string, Fingerprint>, event: UsageEvent, rest: seq<UsageEvent>)
    requires event.eventId !in receipts
    ensures Agrees(receipts, [event] + rest) <==> Agrees(receipts[event.eventId := FingerprintOf(event)], rest)
    ensures Agrees(receipts, [event] + rest) ==>
      forall e :: e in rest && e.eventId == event.eventId ==> e.subject == event.subject
  {
    var all := [event] + rest;
    var booked := receipts[event.eventId := FingerprintOf(event)];
    assert forall e :: e in all <==> e == event || e in rest;
    forall e | e in rest && FingerprintOf(e) == FingerprintOf(event) ensures e.subject == event.subject {
      FingerprintDecidesReplay(e, event);
    }
    hide FingerprintOf;
  }

  /**
   * A batch is booked, as a whole, exactly when it has at most 256 events, receipts of one identity agree with each
   * other and with the one booked, new events charge existing subjects, and all new charges together leave every
   * counter they touch countable.
   */
  lemma {:induction false} BatchTakenExactly(ledger: Ledger, known: set<AccountingSubject>, events: seq<UsageEvent>)
    requires AllValid(events)
    ensures ApplyBatch(ledger, known, events).Success? <==>
      && |events| <= 256
      && Agrees(ledger.receipts, events) && KnownSubjects(ledger.receipts, known, events)
      && FitsAll(ledger.rows, FreshEvents(ledger.receipts.Keys, SortById(events)))
  {
    hide FingerprintOf, FitsAll, ValidEvent;
    var sorted := SortById(events);
    SortByIdPermutes(events);
    SameElements(sorted, events);
    AppliesExactly(ledger, known, sorted);
  }

  lemma {:induction false} SameElements(a: seq<UsageEvent>, b: seq<UsageEvent>)
    requires multiset(a) == multiset(b)
    ensures forall e :: e in a <==> e in b
  {
    forall e ensures e in a <==> e in b {
      assert e in a <==> e in multiset(a);
      assert e in b <==> e in multiset(b);
    }
  }

  // ----- The order of a batch -----

  predicate Sorted(events: seq<UsageEvent>) {
    forall i, j :: 0 <= i < j < |events| ==> StringLe(events[i].eventId, events[j].eventId)
  }

  lemma {:induction false} InsertKeepsSorted(event: UsageEvent, sorted: seq<UsageEvent>)
    requires Sorted(sorted)
    ensures Sorted(InsertById(event, sorted))
  {
    if sorted != [] {
      var rest := sorted[1..];
      if StringLe(event.eventId, sorted[0].eventId) {
        forall j | 0 <= j < |sorted| ensures StringLe(event.eventId, sorted[j].eventId) {
          if j > 0 { StringLeTransitive(event.eventId, sorted[0].eventId, sorted[j].eventId); }
        }
      } else {
        StringLeTotal(event.eventId, sorted[0].eventId);
        InsertKeepsSorted(event, rest);
        var tail := InsertById(event, rest);
        InsertByIdPermutes(event, rest);
        forall j | 0 <= j < |tail| ensures StringLe(sorted[0].eventId, tail[j].eventId) {
          assert tail[j] in multiset(tail);
          assert tail[j] == event || tail[j] in rest;
        }
      }
    }
  }

  /** Batches are booked in the order of their identities, whatever order they come in. */
  lemma {:induction false} BatchIsSorted(events: seq<UsageEvent>)
    ensures Sorted(SortById(events)) && multiset(SortById(events)) == multiset(events)
  {
    SortByIdPermutes(events);
    if events != [] {
      BatchIsSorted(events[1..]);
      InsertKeepsSorted(events[0], SortById(events[1..]));
    }
  }
}
