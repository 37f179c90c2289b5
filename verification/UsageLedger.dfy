/** Replay-safe aggregate accounting: receipts by event identity and one counter per aligned window. */
module UsageLedger {
  import opened Wrappers
  import opened Usage

  datatype AggregateKey =
    AggregateKey(subject: AccountingSubject, bucket: string, unit: UsageUnit, seconds: int, start: int)

  /** What a receipt remembers of an event, before hashing. */
  datatype Fingerprint = Fingerprint(subject: AccountingSubject, occurredAt: int, charges: seq<ChargeLine>)

  datatype ChargeLine = ChargeLine(bucket: string, unit: string, seconds: int, amount: int)

  datatype Ledger = Ledger(receipts: map<string, Fingerprint>, rows: map<AggregateKey, int>)

  datatype LedgerError = ReceiptConflict | AggregateOverflow | UnknownSubject | BatchTooLarge

  const EMPTY_LEDGER := Ledger(map[], map[])

  function UnitValue(unit: UsageUnit): string {
    match unit
    case Requests => "requests"
    case ResourceUnits => "resource_units"
    case Tokens => "tokens"
  }

  function LineOf(charge: UsageCharge): ChargeLine {
    ChargeLine(charge.bucket, UnitValue(charge.unit), charge.window.seconds, charge.amount)
  }

  function Lines(charges: seq<UsageCharge>): seq<ChargeLine> {
    if charges == [] then [] else [LineOf(charges[0])] + Lines(charges[1..])
  }

  // ----- Ordering of charge lines -----

  /** Lexicographic order on strings, as tuple sorting uses it. */
  predicate StringLe(a: string, b: string) {
    a == "" || (b != "" && (a[0] < b[0] || (a[0] == b[0] && StringLe(a[1..], b[1..]))))
  }

  predicate LineLe(a: ChargeLine, b: ChargeLine) {
    if a.bucket != b.bucket then StringLe(a.bucket, b.bucket)
    else if a.unit != b.unit then StringLe(a.unit, b.unit)
    else if a.seconds != b.seconds then a.seconds < b.seconds
    else a.amount <= b.amount
  }

  function Insert(line: ChargeLine, sorted: seq<ChargeLine>): seq<ChargeLine> {
    if sorted == [] then [line]
    else if LineLe(line, sorted[0]) then [line] + sorted
    else [sorted[0]] + Insert(line, sorted[1..])
  }

  function SortLines(lines: seq<ChargeLine>): seq<ChargeLine> {
    if lines == [] then [] else Insert(lines[0], SortLines(lines[1..]))
  }

  predicate SortedLines(lines: seq<ChargeLine>) {
    forall i, j :: 0 <= i < j < |lines| ==> LineLe(lines[i], lines[j])
  }

  function FingerprintOf(event: UsageEvent): Fingerprint {
    Fingerprint(event.subject, event.occurredAt, SortLines(Lines(event.charges)))
  }

  lemma {:induction false} StringLeTotal(a: string, b: string)
    ensures StringLe(a, b) || StringLe(b, a)
  {
    if a != "" && b != "" { StringLeTotal(a[1..], b[1..]); }
  }

  lemma {:induction false} StringLeAntisymmetric(a: string, b: string)
    requires StringLe(a, b) && StringLe(b, a)
    ensures a == b
  {
    if a != "" && b != "" {
      StringLeAntisymmetric(a[1..], b[1..]);
      assert a == [a[0]] + a[1..] && b == [b[0]] + b[1..];
    }
  }

  lemma {:induction false} StringLeTransitive(a: string, b: string, c: string)
    requires StringLe(a, b) && StringLe(b, c)
    ensures StringLe(a, c)
  {
    if a != "" && a[0] == b[0] && b[0] == c[0] { StringLeTransitive(a[1..], b[1..], c[1..]); }
  }

  lemma LineLeTotal(a: ChargeLine, b: ChargeLine)
    ensures LineLe(a, b) || LineLe(b, a)
  {
    StringLeTotal(a.bucket, b.bucket);
    StringLeTotal(a.unit, b.unit);
  }

  lemma LineLeAntisymmetric(a: ChargeLine, b: ChargeLine)
    requires LineLe(a, b) && LineLe(b, a)
    ensures a == b
  {
    if a.bucket != b.bucket { StringLeAntisymmetric(a.bucket, b.bucket); }
    if a.unit != b.unit && a.bucket == b.bucket { StringLeAntisymmetric(a.unit, b.unit); }
  }

  lemma LineLeTransitive(a: ChargeLine, b: ChargeLine, c: ChargeLine)
    requires LineLe(a, b) && LineLe(b, c)
    ensures LineLe(a, c)
  {
    if a.bucket != b.bucket && b.bucket != c.bucket {
      StringLeTransitive(a.bucket, b.bucket, c.bucket);
      if a.bucket == c.bucket { StringLeAntisymmetric(a.bucket, b.bucket); }
    } else if a.bucket == b.bucket == c.bucket && a.unit != b.unit && b.unit != c.unit {
      StringLeTransitive(a.unit, b.unit, c.unit);
      if a.unit == c.unit { StringLeAntisymmetric(a.unit, b.unit); }
    }
  }

  lemma {:induction false} InsertSorts(line: ChargeLine, sorted: seq<ChargeLine>)
    requires SortedLines(sorted)
    ensures SortedLines(Insert(line, sorted))
    ensures multiset(Insert(line, sorted)) == multiset{line} + multiset(sorted)
  {
    if sorted != [] {
      var rest := sorted[1..];
      assert sorted == [sorted[0]] + rest;
      if LineLe(line, sorted[0]) {
        forall j | 0 <= j < |sorted| ensures LineLe(line, sorted[j]) {
          if j > 0 { LineLeTransitive(line, sorted[0], sorted[j]); }
        }
      } else {
        LineLeTotal(line, sorted[0]);
        InsertSorts(line, rest);
        var tail := Insert(line, rest);
        forall j | 0 <= j < |tail| ensures LineLe(sorted[0], tail[j]) {
          assert tail[j] in multiset(tail);
          assert tail[j] == line || tail[j] in rest;
        }
      }
    }
  }

  lemma {:induction false} SortLinesSorts(lines: seq<ChargeLine>)
    ensures SortedLines(SortLines(lines)) && multiset(SortLines(lines)) == multiset(lines)
  {
    if lines != [] {
      SortLinesSorts(lines[1..]);
      InsertSorts(lines[0], SortLines(lines[1..]));
      assert lines == [lines[0]] + lines[1..];
    }
  }

  lemma HeadIsLeast(sorted: seq<ChargeLine>, line: ChargeLine)
    requires SortedLines(sorted) && line in sorted
    ensures LineLe(sorted[0], line)
  {
    var i :| 0 <= i < |sorted| && sorted[i] == line;
    if i == 0 { LineLeTotal(line, line); }
  }

  lemma {:induction false} SortedIsCanonical(a: seq<ChargeLine>, b: seq<ChargeLine>)
    requires SortedLines(a) && SortedLines(b) && multiset(a) == multiset(b)
    ensures a == b
  {
    assert |a| == |multiset(a)| == |multiset(b)| == |b|;
    if a != [] {
      assert a == [a[0]] + a[1..] && b == [b[0]] + b[1..];
      assert a[0] in b by { assert a[0] in multiset(b); }
      assert b[0] in a by { assert b[0] in multiset(a); }
      HeadIsLeast(a, b[0]);
      HeadIsLeast(b, a[0]);
      LineLeAntisymmetric(a[0], b[0]);
      TailsAgree(a, b);
      SortedIsCanonical(a[1..], b[1..]);
    }
  }

  lemma TailsAgree<T>(a: seq<T>, b: seq<T>)
    requires a != [] && b != [] && a[0] == b[0] && multiset(a) == multiset(b)
    ensures multiset(a[1..]) == multiset(b[1..])
  {
    assert a == [a[0]] + a[1..] && b == [b[0]] + b[1..];
    assert multiset(a[1..]) == multiset(a) - multiset{a[0]};
    assert multiset(b[1..]) == multiset(b) - multiset{b[0]};
  }

  /**
   * Two events share a fingerprint exactly when they agree on subject, time and the charges as a
   * multiset: reordering charges is a replay, changing any of them is a conflict.
   */
  lemma FingerprintDecidesReplay(a: UsageEvent, b: UsageEvent)
    ensures FingerprintOf(a) == FingerprintOf(b) <==>
      a.subject == b.subject && a.occurredAt == b.occurredAt && multiset(a.charges) == multiset(b.charges)
  {
    SortLinesSorts(Lines(a.charges));
    SortLinesSorts(Lines(b.charges));
    if FingerprintOf(a) == FingerprintOf(b) {
      LinesDetermineCharges(a.charges, b.charges);
    } else if a.subject == b.subject && a.occurredAt == b.occurredAt && multiset(a.charges) == multiset(b.charges) {
      ChargesDetermineLines(a.charges, b.charges);
      SortedIsCanonical(SortLines(Lines(a.charges)), SortLines(Lines(b.charges)));
    }
  }

  lemma LineIsInjective(a: UsageCharge, b: UsageCharge)
    requires LineOf(a) == LineOf(b)
    ensures a == b
  {
    assert UnitValue(a.unit)[0] == UnitValue(b.unit)[0];
  }

  lemma {:induction false} LineCount(charges: seq<UsageCharge>, charge: UsageCharge)
    ensures multiset(Lines(charges))[LineOf(charge)] == multiset(charges)[charge]
  {
    if charges != [] {
      LineCount(charges[1..], charge);
      assert charges == [charges[0]] + charges[1..];
      if LineOf(charges[0]) == LineOf(charge) { LineIsInjective(charges[0], charge); }
    }
  }

  lemma LinesDetermineCharges(a: seq<UsageCharge>, b: seq<UsageCharge>)
    requires multiset(Lines(a)) == multiset(Lines(b))
    ensures multiset(a) == multiset(b)
  {
    forall charge: UsageCharge ensures multiset(a)[charge] == multiset(b)[charge] {
      LineCount(a, charge);
      LineCount(b, charge);
    }
  }

  lemma {:induction false} LinesComeFromCharges(charges: seq<UsageCharge>, line: ChargeLine)
    requires line in Lines(charges)
    ensures exists charge :: charge in charges && LineOf(charge) == line
  {
    if line == LineOf(charges[0]) {
      assert charges[0] in charges;
    } else {
      LinesComeFromCharges(charges[1..], line);
    }
  }

  lemma ChargesDetermineLines(a: seq<UsageCharge>, b: seq<UsageCharge>)
    requires multiset(a) == multiset(b)
    ensures multiset(Lines(a)) == multiset(Lines(b))
  {
    forall line: ChargeLine ensures multiset(Lines(a))[line] == multiset(Lines(b))[line] {
      if line in Lines(a) {
        LinesComeFromCharges(a, line);
        var charge :| charge in a && LineOf(charge) == line;
        LineCount(a, charge);
        LineCount(b, charge);
      } else if line in Lines(b) {
        LinesComeFromCharges(b, line);
        var charge :| charge in b && LineOf(charge) == line;
        LineCount(a, charge);
        LineCount(b, charge);
      }
    }
  }

  // ----- Applying batches -----

  function KeyOf(event: UsageEvent, charge: UsageCharge): AggregateKey
    requires ValidWindow(charge.window) && event.occurredAt >= 0
  {
    AggregateKey(
      event.subject, charge.bucket, charge.unit, charge.window.seconds, WindowStart(charge.window, event.occurredAt))
  }

  function Row(rows: map<AggregateKey, int>, key: AggregateKey): int {
    if key in rows then rows[key] else 0
  }

  /** Guarded upsert of one counter. */
  function AddCharge(rows: map<AggregateKey, int>, event: UsageEvent, charge: UsageCharge)
    : Result<map<AggregateKey, int>, LedgerError>
    requires ValidWindow(charge.window) && event.occurredAt >= 0
  {
    var key := KeyOf(event, charge);
    if key !in rows then Success(rows[key := charge.amount])
    else if rows[key] <= MAX_ACCOUNTING_INTEGER - charge.amount then Success(rows[key := rows[key] + charge.amount])
    else Failure(AggregateOverflow)
  }

  predicate Chargeable(event: UsageEvent, charges: seq<UsageCharge>) {
    event.occurredAt >= 0 && forall i :: 0 <= i < |charges| ==> ValidWindow(charges[i].window)
  }

  predicate AllValid(events: seq<UsageEvent>) {
    forall i :: 0 <= i < |events| ==> ValidEvent(events[i])
  }

  function AddCharges(rows: map<AggregateKey, int>, event: UsageEvent, charges: seq<UsageCharge>)
    : Result<map<AggregateKey, int>, LedgerError>
    requires Chargeable(event, charges)
    decreases |charges|
  {
    if charges == [] then Success(rows)
    else
      match AddCharge(rows, event, charges[0])
      case Failure(error) => Failure(error)
      case Success(updated) => AddCharges(updated, event, charges[1..])
  }

  datatype ReceiptClaim = FreshReceipt | ReplayedReceipt | ConflictingReceipt

  /** Claim an event identity once; a known identity must carry the same fingerprint. */
  function ClaimReceipt(receipts: map<string, Fingerprint>, event: UsageEvent): ReceiptClaim {
    if event.eventId !in receipts then FreshReceipt
    else if receipts[event.eventId] == FingerprintOf(event) then ReplayedReceipt
    else ConflictingReceipt
  }

  /** Account events in the given order; any failure aborts everything. */
  function ApplyEvents(ledger: Ledger, known: set<AccountingSubject>, events: seq<UsageEvent>)
    : Result<Ledger, LedgerError>
    requires AllValid(events)
    decreases |events|
  {
    if events == [] then Success(ledger)
    else
      var event := events[0];
      match ClaimReceipt(ledger.receipts, event)
      case ReplayedReceipt => ApplyEvents(ledger, known, events[1..])
      case ConflictingReceipt => Failure(ReceiptConflict)
      case FreshReceipt =>
        if event.subject !in known then Failure(UnknownSubject)
        else
          match AddCharges(ledger.rows, event, event.charges)
          case Failure(error) => Failure(error)
          case Success(rows) =>
            ApplyEvents(Ledger(ledger.receipts[event.eventId := FingerprintOf(event)], rows), known, events[1..])
  }

  function InsertById(event: UsageEvent, sorted: seq<UsageEvent>): seq<UsageEvent> {
    if sorted == [] then [event]
    else if StringLe(event.eventId, sorted[0].eventId) then [event] + sorted
    else [sorted[0]] + InsertById(event, sorted[1..])
  }

  /** Stable order by event identity. */
  function SortById(events: seq<UsageEvent>): seq<UsageEvent> {
    if events == [] then [] else InsertById(events[0], SortById(events[1..]))
  }

  function ApplyBatch(ledger: Ledger, known: set<AccountingSubject>, events: seq<UsageEvent>)
    : Result<Ledger, LedgerError>
    requires AllValid(events)
  {
    SortByIdPermutes(events);
    if |events| > MAX_USAGE_BATCH then Failure(BatchTooLarge) else ApplyEvents(ledger, known, SortById(events))
  }

  lemma {:induction false} InsertByIdPermutes(event: UsageEvent, sorted: seq<UsageEvent>)
    ensures multiset(InsertById(event, sorted)) == multiset{event} + multiset(sorted)
  {
    if sorted != [] {
      assert sorted == [sorted[0]] + sorted[1..];
      InsertByIdPermutes(event, sorted[1..]);
    }
  }

  lemma {:induction false} SortByIdPermutes(events: seq<UsageEvent>)
    ensures multiset(SortById(events)) == multiset(events)
    ensures AllValid(events) ==> AllValid(SortById(events))
  {
    if events != [] {
      SortByIdPermutes(events[1..]);
      InsertByIdPermutes(events[0], SortById(events[1..]));
      assert events == [events[0]] + events[1..];
    }
    forall i | 0 <= i < |SortById(events)| ensures SortById(events)[i] in events {
      assert SortById(events)[i] in multiset(SortById(events));
    }
  }

  // ----- The plain event log the aggregates stand for -----

  /** An aggregate key names an aligned window. */
  predicate Aligned(key: AggregateKey) {
    key.seconds > 0 && key.start >= 0 && key.start % key.seconds == 0
  }

  /** A charge belongs to a key when the dimension agrees and the event falls inside the window. */
  predicate Counts(event: UsageEvent, charge: UsageCharge, key: AggregateKey) {
    && event.subject == key.subject && charge.bucket == key.bucket && charge.unit == key.unit
    && charge.window.seconds == key.seconds
    && key.start <= event.occurredAt < key.start + key.seconds
  }

  function ChargesTotal(event: UsageEvent, charges: seq<UsageCharge>, key: AggregateKey): int {
    if charges == [] then 0
    else (if Counts(event, charges[0], key) then charges[0].amount else 0) + ChargesTotal(event, charges[1..], key)
  }

  function LoggedTotal(log: seq<UsageEvent>, key: AggregateKey): int {
    if log == [] then 0
    else LoggedTotal(log[..|log| - 1], key) + ChargesTotal(log[|log| - 1], log[|log| - 1].charges, key)
  }

  predicate DistinctIds(log: seq<UsageEvent>) {
    forall i, j :: 0 <= i < j < |log| ==> log[i].eventId != log[j].eventId
  }

  predicate ReceiptsMatch(receipts: map<string, Fingerprint>, log: seq<UsageEvent>) {
    && (forall i :: 0 <= i < |log| ==>
          log[i].eventId in receipts && receipts[log[i].eventId] == FingerprintOf(log[i]))
    && (forall id :: id in receipts ==> exists i :: 0 <= i < |log| && log[i].eventId == id)
  }

  ghost predicate RowsMatch(rows: map<AggregateKey, int>, log: seq<UsageEvent>) {
    forall key :: Aligned(key) ==> Row(rows, key) == LoggedTotal(log, key)
  }

  /** The ledger is exactly the aggregation of a log of distinct events. */
  ghost predicate Explains(ledger: Ledger, log: seq<UsageEvent>) {
    DistinctIds(log) && ReceiptsMatch(ledger.receipts, log) && RowsMatch(ledger.rows, log)
  }

  /** Windows partition time: an aligned window holds a timestamp exactly when it is the one it aligns to. */
  lemma WindowsPartitionTime(window: UsageWindow, timestamp: int, start: int)
    requires ValidWindow(window) && timestamp >= 0
    ensures WindowStart(window, timestamp) <= timestamp < WindowStart(window, timestamp) + window.seconds
    ensures (start % window.seconds == 0 && start <= timestamp < start + window.seconds)
      <==> start == WindowStart(window, timestamp)
  {
    var n := window.seconds;
    var aligned := timestamp - timestamp % n;
    assert timestamp == n * (timestamp / n) + timestamp % n;
    assert aligned == n * (timestamp / n);
    MultipleIsAligned(n, timestamp / n);
    if start % n == 0 && start <= timestamp < start + n {
      assert start == n * (start / n) + start % n;
      MultiplesInOneWindow(n, start / n, timestamp / n, timestamp);
    }
  }

  lemma MultipleIsAligned(n: int, k: int)
    requires n > 0
    ensures (n * k) % n == 0
  {
    var q, r := (n * k) / n, (n * k) % n;
    assert n * k == n * q + r;
    assert r == n * (k - q);
    MultiplesInOneWindow(n, k, q, n * k);
  }

  lemma MultiplesInOneWindow(n: int, a: int, b: int, t: int)
    requires n > 0
    requires n * a <= t < n * a + n && n * b <= t < n * b + n
    ensures a == b
  {
    assert a <= b by { ScaledOrder(n, b, a); }
    assert b <= a by { ScaledOrder(n, a, b); }
  }

  lemma {:induction false} ScaledOrder(n: int, low: int, high: int)
    requires n > 0
    ensures low < high ==> n * low + n <= n * high
    decreases high - low
  {
    if low < high {
      assert n * high == n * (high - 1) + n;
      ScaledOrder(n, low, high - 1);
    }
  }

  lemma ChargeCountsForItsKey(event: UsageEvent, charge: UsageCharge, key: AggregateKey)
    requires ValidWindow(charge.window) && event.occurredAt >= 0 && Aligned(key)
    ensures Counts(event, charge, key) <==> KeyOf(event, charge) == key
  {
    WindowsPartitionTime(charge.window, event.occurredAt, key.start);
  }

  lemma {:induction false} AddChargesAdds(
    rows: map<AggregateKey, int>, event: UsageEvent, charges: seq<UsageCharge>, key: AggregateKey)
    requires Chargeable(event, charges) && Aligned(key)
    requires AddCharges(rows, event, charges).Success?
    ensures Row(AddCharges(rows, event, charges).value, key) == Row(rows, key) + ChargesTotal(event, charges, key)
    decreases |charges|
  {
    if charges != [] {
      ChargeCountsForItsKey(event, charges[0], key);
      AddChargesAdds(AddCharge(rows, event, charges[0]).value, event, charges[1..], key);
    }
  }

  /** The events of a batch that are not replays, in order. */
  function FreshEvents(seen: set<string>, events: seq<UsageEvent>): seq<UsageEvent>
    decreases |events|
  {
    if events == [] then []
    else if events[0].eventId in seen then FreshEvents(seen, events[1..])
    else [events[0]] + FreshEvents(seen + {events[0].eventId}, events[1..])
  }

  lemma {:induction false} FreshRowsMatch(rows: map<AggregateKey, int>, log: seq<UsageEvent>, event: UsageEvent)
    requires RowsMatch(rows, log) && ValidEvent(event) && AddCharges(rows, event, event.charges).Success?
    ensures RowsMatch(AddCharges(rows, event, event.charges).value, log + [event])
  {
    var after := AddCharges(rows, event, event.charges).value;
    var longer := log + [event];
    assert longer[..|longer| - 1] == log;
    forall key | Aligned(key) ensures Row(after, key) == LoggedTotal(longer, key) {
      AddChargesAdds(rows, event, event.charges, key);
    }
  }

  lemma {:induction false} FreshReceiptsMatch(
    receipts: map<string, Fingerprint>, log: seq<UsageEvent>, event: UsageEvent)
    requires ReceiptsMatch(receipts, log) && DistinctIds(log) && event.eventId !in receipts
    ensures ReceiptsMatch(receipts[event.eventId := FingerprintOf(event)], log + [event])
    ensures DistinctIds(log + [event])
  {
    hide FingerprintOf;
    var updated := receipts[event.eventId := FingerprintOf(event)];
    var longer := log + [event];
    forall i | 0 <= i < |log|
      ensures longer[i] == log[i] && log[i].eventId in receipts && log[i].eventId != event.eventId
    {
    }
    forall id | id in updated ensures exists i :: 0 <= i < |longer| && longer[i].eventId == id {
      if id == event.eventId {
        assert longer[|log|].eventId == id;
      } else {
        var i :| 0 <= i < |log| && log[i].eventId == id;
        assert longer[i].eventId == id;
      }
    }
  }

  lemma {:induction false} FreshEventExtends(ledger: Ledger, log: seq<UsageEvent>, event: UsageEvent)
    requires Explains(ledger, log) && ValidEvent(event) && event.eventId !in ledger.receipts
    requires AddCharges(ledger.rows, event, event.charges).Success?
    ensures Explains(
      Ledger(ledger.receipts[event.eventId := FingerprintOf(event)],
             AddCharges(ledger.rows, event, event.charges).value),
      log + [event])
  {
    hide FingerprintOf, AddCharges, RowsMatch, ReceiptsMatch, DistinctIds, ValidEvent;
    FreshRowsMatch(ledger.rows, log, event);
    FreshReceiptsMatch(ledger.receipts, log, event);
  }

  lemma {:induction false} ApplyEventsExtends(
    ledger: Ledger, known: set<AccountingSubject>, log: seq<UsageEvent>, events: seq<UsageEvent>)
    requires Explains(ledger, log) && AllValid(events)
    requires ApplyEvents(ledger, known, events).Success?
    ensures Explains(
      ApplyEvents(ledger, known, events).value, log + FreshEvents(ledger.receipts.Keys, events))
    decreases |events|
  {
    hide Explains, FingerprintOf, AddCharges;
    if events == [] {
      assert log + [] == log;
    } else if ClaimReceipt(ledger.receipts, events[0]).ReplayedReceipt? {
      ApplyEventsExtends(ledger, known, log, events[1..]);
    } else {
      var event := events[0];
      FreshEventExtends(ledger, log, event);
      var next := Ledger(
        ledger.receipts[event.eventId := FingerprintOf(event)],
        AddCharges(ledger.rows, event, event.charges).value);
      ApplyEventsExtends(next, known, log + [event], events[1..]);
      assert next.receipts.Keys == ledger.receipts.Keys + {event.eventId};
      assert log + [event] + FreshEvents(next.receipts.Keys, events[1..])
        == log + FreshEvents(ledger.receipts.Keys, events);
    }
  }

  // ----- Runs of batches -----

  predicate AllBatchesValid(batches: seq<seq<UsageEvent>>) {
    forall i :: 0 <= i < |batches| ==> AllValid(batches[i])
  }

  /** Apply batches in turn; a failed batch is rolled back. */
  function RunBatches(ledger: Ledger, known: set<AccountingSubject>, batches: seq<seq<UsageEvent>>): Ledger
    requires AllBatchesValid(batches)
    decreases |batches|
  {
    if batches == [] then ledger
    else
      var applied := ApplyBatch(ledger, known, batches[0]);
      RunBatches(if applied.Success? then applied.value else ledger, known, batches[1..])
  }

  /** The distinct events the run committed, in commit order. */
  function CommittedLog(ledger: Ledger, known: set<AccountingSubject>, batches: seq<seq<UsageEvent>>)
    : seq<UsageEvent>
    requires AllBatchesValid(batches)
    decreases |batches|
  {
    if batches == [] then []
    else
      var applied := ApplyBatch(ledger, known, batches[0]);
      if applied.Success?
      then FreshEvents(ledger.receipts.Keys, SortById(batches[0])) + CommittedLog(applied.value, known, batches[1..])
      else CommittedLog(ledger, known, batches[1..])
  }

  /** After any run, with replays, conflicts and rollbacks, the counters are the sums over the distinct events. */
  lemma {:induction false} LedgerRefinesEventLog(
    ledger: Ledger, known: set<AccountingSubject>, log: seq<UsageEvent>, batches: seq<seq<UsageEvent>>)
    requires Explains(ledger, log) && AllBatchesValid(batches)
    ensures Explains(RunBatches(ledger, known, batches), log + CommittedLog(ledger, known, batches))
    decreases |batches|
  {
    hide Explains;
    if batches == [] {
      assert log + [] == log;
    } else {
      var applied := ApplyBatch(ledger, known, batches[0]);
      if applied.Success? {
        SortByIdPermutes(batches[0]);
        var added := FreshEvents(ledger.receipts.Keys, SortById(batches[0]));
        ApplyEventsExtends(ledger, known, log, SortById(batches[0]));
        LedgerRefinesEventLog(applied.value, known, log + added, batches[1..]);
        assert log + added + CommittedLog(applied.value, known, batches[1..])
          == log + CommittedLog(ledger, known, batches);
      } else {
        LedgerRefinesEventLog(ledger, known, log, batches[1..]);
      }
    }
  }

  lemma EmptyLedgerIsExplained()
    ensures Explains(EMPTY_LEDGER, [])
  {
  }

  lemma {:induction false} LoggedTotalRemove(log: seq<UsageEvent>, i: nat, key: AggregateKey)
    requires i < |log|
    ensures LoggedTotal(log, key)
      == LoggedTotal(log[..i] + log[i + 1..], key) + ChargesTotal(log[i], log[i].charges, key)
    decreases |log|
  {
    var last := |log| - 1;
    if i == last {
      assert log[..i] + log[i + 1..] == log[..last];
    } else {
      LoggedTotalRemove(log[..last], i, key);
      var shorter := log[..i] + log[i + 1..];
      assert shorter[..|shorter| - 1] == log[..last][..i] + log[..last][i + 1..];
    }
  }

  lemma RemovalsAgree<T>(a: seq<T>, b: seq<T>, i: nat)
    requires a != [] && i < |b| && b[i] == a[|a| - 1] && multiset(a) == multiset(b)
    ensures multiset(a[..|a| - 1]) == multiset(b[..i] + b[i + 1..])
  {
    assert a == a[..|a| - 1] + [b[i]];
    assert b == b[..i] + ([b[i]] + b[i + 1..]);
    assert multiset(a) == multiset(a[..|a| - 1]) + multiset{b[i]};
    assert multiset(b) == multiset(b[..i] + b[i + 1..]) + multiset{b[i]};
    assert multiset(a[..|a| - 1]) == multiset(a) - multiset{b[i]};
    assert multiset(b[..i] + b[i + 1..]) == multiset(b) - multiset{b[i]};
  }

  lemma {:induction false} TotalsIgnoreOrder(a: seq<UsageEvent>, b: seq<UsageEvent>, key: AggregateKey)
    requires multiset(a) == multiset(b)
    ensures LoggedTotal(a, key) == LoggedTotal(b, key)
    decreases |a|
  {
    assert |a| == |multiset(a)| == |multiset(b)| == |b|;
    if a != [] {
      var last := |a| - 1;
      assert a == a[..last] + [a[last]];
      assert a[last] in multiset(b);
      var i :| 0 <= i < |b| && b[i] == a[last];
      LoggedTotalRemove(b, i, key);
      RemovalsAgree(a, b, i);
      TotalsIgnoreOrder(a[..last], b[..i] + b[i + 1..], key);
    }
  }

  lemma DistinctLogCount(log: seq<UsageEvent>, event: UsageEvent)
    requires DistinctIds(log)
    ensures multiset(log)[event] == if event in log then 1 else 0
  {
    if event in log {
      var i :| 0 <= i < |log| && log[i] == event;
      assert log == log[..i] + [event] + log[i + 1..];
      assert event !in log[..i] && event !in log[i + 1..];
    }
  }

  /** Two ledgers that committed the same events, in whatever batches and order, hold the same totals. */
  lemma SameEventsSameTotals(a: Ledger, logA: seq<UsageEvent>, b: Ledger, logB: seq<UsageEvent>, key: AggregateKey)
    requires Explains(a, logA) && Explains(b, logB)
    requires forall event :: event in logA <==> event in logB
    requires Aligned(key)
    ensures Row(a.rows, key) == Row(b.rows, key)
  {
    forall event: UsageEvent ensures multiset(logA)[event] == multiset(logB)[event] {
      DistinctLogCount(logA, event);
      DistinctLogCount(logB, event);
    }
    TotalsIgnoreOrder(logA, logB, key);
  }

  lemma {:induction false} ApplyEventsKeepsReceipts(
    ledger: Ledger, known: set<AccountingSubject>, events: seq<UsageEvent>)
    requires AllValid(events) && ApplyEvents(ledger, known, events).Success?
    ensures var after := ApplyEvents(ledger, known, events).value.receipts;
      && (forall id :: id in ledger.receipts ==> id in after && after[id] == ledger.receipts[id])
      && (forall i :: 0 <= i < |events| ==>
            events[i].eventId in after && after[events[i].eventId] == FingerprintOf(events[i]))
    decreases |events|
  {
    if events != [] {
      var event := events[0];
      if ClaimReceipt(ledger.receipts, event).ReplayedReceipt? {
        ApplyEventsKeepsReceipts(ledger, known, events[1..]);
      } else {
        var next := Ledger(
          ledger.receipts[event.eventId := FingerprintOf(event)],
          AddCharges(ledger.rows, event, event.charges).value);
        ApplyEventsKeepsReceipts(next, known, events[1..]);
      }
    }
  }

  lemma {:induction false} RecordedEventsAreReplays(
    ledger: Ledger, known: set<AccountingSubject>, events: seq<UsageEvent>)
    requires AllValid(events)
    requires forall i :: 0 <= i < |events| ==> ClaimReceipt(ledger.receipts, events[i]).ReplayedReceipt?
    ensures ApplyEvents(ledger, known, events) == Success(ledger)
    decreases |events|
  {
    if events != [] { RecordedEventsAreReplays(ledger, known, events[1..]); }
  }

  /** Repeating a committed batch changes nothing. */
  lemma BatchReplayChangesNothing(ledger: Ledger, known: set<AccountingSubject>, events: seq<UsageEvent>)
    requires AllValid(events) && ApplyBatch(ledger, known, events).Success?
    ensures var after := ApplyBatch(ledger, known, events).value;
      ApplyBatch(after, known, events) == Success(after)
  {
    SortByIdPermutes(events);
    var after := ApplyBatch(ledger, known, events).value;
    ApplyEventsKeepsReceipts(ledger, known, SortById(events));
    RecordedEventsAreReplays(after, known, SortById(events));
  }

  /** The counters are the sums over the distinct committed events, from the first batch on. */
  lemma LedgerIsItsEventLog(known: set<AccountingSubject>, batches: seq<seq<UsageEvent>>)
    requires AllBatchesValid(batches)
    ensures Explains(RunBatches(EMPTY_LEDGER, known, batches), CommittedLog(EMPTY_LEDGER, known, batches))
  {
    hide Explains, ApplyBatch, FreshEvents;
    EmptyLedgerIsExplained();
    LedgerRefinesEventLog(EMPTY_LEDGER, known, [], batches);
    assert [] + CommittedLog(EMPTY_LEDGER, known, batches) == CommittedLog(EMPTY_LEDGER, known, batches);
  }

  // ----- One event -----

  /** Applying one event: a fresh identity adds its charges, a known one with equal charges changes nothing. */
  lemma ApplyOne(ledger: Ledger, known: set<AccountingSubject>, event: UsageEvent)
    requires ValidEvent(event)
    ensures var claim := ClaimReceipt(ledger.receipts, event);
      var result := ApplyBatch(ledger, known, [event]);
      && (claim.ReplayedReceipt? ==> result == Success(ledger))
      && (result == Failure(ReceiptConflict) <==> claim.ConflictingReceipt?)
      && (claim.FreshReceipt? && result.Success? ==>
            && AddCharges(ledger.rows, event, event.charges).Success?
            && result.value == Ledger(
                 ledger.receipts[event.eventId := FingerprintOf(event)],
                 AddCharges(ledger.rows, event, event.charges).value))
  {
    hide FingerprintOf, AddCharges;
    assert [event][1..] == [];
    assert SortById([event]) == [event] by { assert SortById([]) == []; }
    assert ApplyEvents(ledger, known, [event][1..]) == Success(ledger);
    var added := AddCharges(ledger.rows, event, event.charges);
    if ClaimReceipt(ledger.receipts, event).FreshReceipt? && added.Success? {
      var updated := Ledger(ledger.receipts[event.eventId := FingerprintOf(event)], added.value);
      assert ApplyEvents(updated, known, [event][1..]) == Success(updated);
    }
    AddChargesOnlyOverflows(ledger.rows, event, event.charges);
  }

  lemma {:induction false} AddChargesOnlyOverflows(
    rows: map<AggregateKey, int>, event: UsageEvent, charges: seq<UsageCharge>)
    requires Chargeable(event, charges)
    ensures AddCharges(rows, event, charges).Failure? ==> AddCharges(rows, event, charges).error == AggregateOverflow
    decreases |charges|
  {
    if charges != [] {
      var added := AddCharge(rows, event, charges[0]);
      if added.Success? { AddChargesOnlyOverflows(added.value, event, charges[1..]); }
    }
  }

  /** Every counter the charges touch can take them. */
  predicate HasRoom(rows: map<AggregateKey, int>, event: UsageEvent, charges: seq<UsageCharge>)
    requires Chargeable(event, charges)
  {
    forall i :: 0 <= i < |charges| ==> Row(rows, KeyOf(event, charges[i])) <= MAX_ACCOUNTING_INTEGER - charges[i].amount
  }

  lemma {:induction false} ChargesFitExactly(rows: map<AggregateKey, int>, event: UsageEvent, charges: seq<UsageCharge>)
    requires Chargeable(event, charges) && DistinctDimensions(charges)
    requires forall i :: 0 <= i < |charges| ==> charges[i].amount <= MAX_ACCOUNTING_INTEGER
    ensures AddCharges(rows, event, charges).Success? <==> HasRoom(rows, event, charges)
    decreases |charges|
  {
    if charges != [] {
      var rest := charges[1..];
      var added := AddCharge(rows, event, charges[0]);
      if added.Success? {
        assert DistinctDimensions(rest);
        ChargesFitExactly(added.value, event, rest);
        forall i | 0 <= i < |rest| ensures Row(added.value, KeyOf(event, rest[i])) == Row(rows, KeyOf(event, rest[i])) {
          assert ChargeDimension(charges[0]) != ChargeDimension(charges[i + 1]);
        }
        RoomForAll(rows, added.value, event, charges);
      }
    }
  }

  /** Room for the first charge and, after it, for the rest is room for all. */
  lemma RoomForAll(
    rows: map<AggregateKey, int>, after: map<AggregateKey, int>, event: UsageEvent, charges: seq<UsageCharge>)
    requires charges != [] && Chargeable(event, charges)
    requires Row(rows, KeyOf(event, charges[0])) <= MAX_ACCOUNTING_INTEGER - charges[0].amount
    requires forall i :: 0 <= i < |charges[1..]| ==>
      Row(after, KeyOf(event, charges[1..][i])) == Row(rows, KeyOf(event, charges[1..][i]))
    ensures HasRoom(rows, event, charges) <==> HasRoom(after, event, charges[1..])
  {
    var rest := charges[1..];
    if HasRoom(after, event, rest) {
      forall i | 0 <= i < |charges|
        ensures Row(rows, KeyOf(event, charges[i])) <= MAX_ACCOUNTING_INTEGER - charges[i].amount
      {
        if i > 0 { assert charges[i] == rest[i - 1]; }
      }
    }
    if HasRoom(rows, event, charges) {
      forall i | 0 <= i < |rest| ensures Row(after, KeyOf(event, rest[i])) <= MAX_ACCOUNTING_INTEGER - rest[i].amount {
        assert rest[i] == charges[i + 1];
      }
    }
  }

  /**
   * A receipt can be booked: it is there already with the same charges, or it is new, its subject is known
   * and its counters have room.
   */
  predicate Bookable(ledger: Ledger, known: set<AccountingSubject>, event: UsageEvent)
    requires ValidEvent(event)
  {
    if event.eventId in ledger.receipts then ledger.receipts[event.eventId] == FingerprintOf(event)
    else event.subject in known && HasRoom(ledger.rows, event, event.charges)
  }

  /** The ledger takes a batch of one event exactly when the event can be booked. */
  lemma BatchOfOneTakenExactly(ledger: Ledger, known: set<AccountingSubject>, event: UsageEvent)
    requires ValidEvent(event)
    ensures ApplyBatch(ledger, known, [event]).Success? <==> Bookable(ledger, known, event)
  {
    hide FingerprintOf, AddCharges, HasRoom;
    ChargesFitExactly(ledger.rows, event, event.charges);
    assert [event][1..] == [];
    assert SortById([event]) == [event] by { assert SortById([]) == []; }
    if ClaimReceipt(ledger.receipts, event).FreshReceipt? {
      var added := AddCharges(ledger.rows, event, event.charges);
      if added.Success? {
        var updated := Ledger(ledger.receipts[event.eventId := FingerprintOf(event)], added.value);
        assert ApplyEvents(updated, known, [event][1..]) == Success(updated);
      }
    } else {
      assert ApplyEvents(ledger, known, [event][1..]) == Success(ledger);
    }
  }
}
