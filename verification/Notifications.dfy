/** Delivering due notification receipts: gates, one send, one recorded outcome, bounded backoff. */
module Notifications {
  import opened Wrappers

  const MAX_DELIVERY_ATTEMPTS := 5
  const BASE_BACKOFF_SECONDS: real := 30.0
  const MAX_BACKOFF_SECONDS: real := 300.0

  datatype Outcome = Pending | Delivered | Retry | Dismissed | Skipped | Unreachable

  datatype Receipt = Receipt(outcome: Outcome, attempts: nat, lastAttemptAt: Option<real>)

  /** A stored receipt with what happened to it: sends made, sends never recorded, first recorded attempt. */
  datatype Entry = Entry(
    receipt: Receipt, sends: nat, lost: nat, firstAttemptAt: Option<real>)

  datatype Answer = Yes | No | Fails

  /** What outside code answers while one receipt is handled. */
  datatype Turn = Turn(
    now: real, preference: Answer, reachable: Answer, body: Answer, addressed: bool, accepted: bool, recorded: bool,
    recordedAt: real)

  datatype Handled = Handled(delivered: bool, raised: bool, entry: Entry)

  predicate Due(outcome: Outcome) {
    outcome.Pending? || outcome.Retry?
  }

  function Doubled(seconds: real, times: nat): real {
    if times == 0 then seconds else 2.0 * Doubled(seconds, times - 1)
  }

  /** Seconds to wait after the given number of attempts. */
  function Backoff(attempts: nat): real {
    var wait := Doubled(BASE_BACKOFF_SECONDS, if attempts == 0 then 0 else attempts - 1);
    if wait < MAX_BACKOFF_SECONDS then wait else MAX_BACKOFF_SECONDS
  }

  predicate Waited(r: Receipt, now: real) {
    r.attempts == 0 || r.lastAttemptAt.None? || now >= r.lastAttemptAt.value + Backoff(r.attempts)
  }

  /** Write an outcome; a write that fails raises and leaves the receipt as it was. */
  function Record(e: Entry, outcome: Outcome, attempts: nat, turn: Turn, delivered: bool): Handled {
    if !turn.recorded then Handled(false, true, e)
    else Handled(delivered, false, e.(receipt := Receipt(outcome, attempts, Some(turn.recordedAt))))
  }

  /** One send and the outcome it leads to. */
  function Send(e: Entry, turn: Turn): Handled {
    var attempts := e.receipt.attempts + 1;
    var first := if turn.recorded && e.firstAttemptAt.None? then Some(turn.recordedAt) else e.firstAttemptAt;
    var sent := e.(sends := e.sends + 1,
                   lost := e.lost + if turn.recorded then 0 else 1, firstAttemptAt := first);
    if turn.accepted then Record(sent, Delivered, attempts, turn, true)
    else Record(sent, if attempts >= MAX_DELIVERY_ATTEMPTS then Unreachable else Retry, attempts, turn, false)
  }

  /** The gates in order, then the body, then the send. */
  function Deliver(e: Entry, turn: Turn): Handled {
    if !Waited(e.receipt, turn.now) then Handled(false, false, e)
    else if turn.preference.Fails? then Handled(false, true, e)
    else if turn.preference.No? then Record(e, Skipped, e.receipt.attempts, turn, false)
    else if turn.reachable.Fails? then Handled(false, true, e)
    else if turn.reachable.No? then Record(e, Unreachable, e.receipt.attempts, turn, false)
    else if turn.body.Fails? then Handled(false, true, e)
    else if turn.body.No? then Record(e, Skipped, e.receipt.attempts, turn, false)
    else if !turn.addressed then Record(e, Unreachable, e.receipt.attempts, turn, false)
    else Send(e, turn)
  }

  // ----- One sweep -----

  type Ledger = map<string, Entry>

  /** A page of distinct due receipts, as the ledger lists them. */
  predicate DuePage(ledger: Ledger, page: seq<string>) {
    && (forall i :: 0 <= i < |page| ==> page[i] in ledger && Due(ledger[page[i]].receipt.outcome))
    && (forall i, j :: 0 <= i < j < |page| ==> page[i] != page[j])
  }

  /** The ledger after the first n entries of a page had their turn. */
  function DeliveredUpTo(ledger: Ledger, page: seq<string>, turns: seq<Turn>, n: nat): Ledger
    requires n <= |page| == |turns| && forall i :: 0 <= i < |page| ==> page[i] in ledger
  {
    map key | key in ledger ::
      if exists i :: 0 <= i < n && page[i] == key then AtTurn(ledger, page, turns, key, n) else ledger[key]
  }

  function AtTurn(ledger: Ledger, page: seq<string>, turns: seq<Turn>, key: string, n: nat): Entry
    requires n <= |page| == |turns| && key in ledger
  {
    if n == 0 then ledger[key]
    else if page[n - 1] == key then Deliver(ledger[key], turns[n - 1]).entry
    else AtTurn(ledger, page, turns, key, n - 1)
  }

  function DeliveredCount(ledger: Ledger, page: seq<string>, turns: seq<Turn>, n: nat): nat
    requires n <= |page| == |turns| && forall i :: 0 <= i < |page| ==> page[i] in ledger
  {
    if n == 0 then 0
    else
      DeliveredCount(ledger, page, turns, n - 1)
      + if Deliver(ledger[page[n - 1]], turns[n - 1]).delivered then 1 else 0
  }

  class NotificationDeliveryService {
    var ledger: Ledger

    constructor (ledger: Ledger)
      ensures this.ledger == ledger
    {
      this.ledger := ledger;
    }

    /**
     * Handle the page in order and count accepted sends. The first call that raises ends the sweep: the
     * receipts before it and its own have had their turn, the rest are untouched.
     */
    method DeliverDue(page: seq<string>, turns: seq<Turn>) returns (delivered: Option<nat>)
      requires |turns| == |page| && DuePage(ledger, page)
      modifies this
      ensures delivered.Some? ==>
        && ledger == DeliveredUpTo(old(ledger), page, turns, |page|)
        && delivered.value == DeliveredCount(old(ledger), page, turns, |page|)
        && forall i :: 0 <= i < |page| ==> !Deliver(old(ledger)[page[i]], turns[i]).raised
      ensures delivered.None? ==>
        exists k ::
          && 0 <= k < |page| && Deliver(old(ledger)[page[k]], turns[k]).raised
          && (forall i :: 0 <= i < k ==> !Deliver(old(ledger)[page[i]], turns[i]).raised)
          && ledger == DeliveredUpTo(old(ledger), page, turns, k + 1)
    {
      hide Deliver;
      var count := 0;
      assert ledger == DeliveredUpTo(old(ledger), page, turns, 0);
      for n := 0 to |page|
        invariant ledger == DeliveredUpTo(old(ledger), page, turns, n)
        invariant count == DeliveredCount(old(ledger), page, turns, n)
        invariant forall i :: 0 <= i < n ==> !Deliver(old(ledger)[page[i]], turns[i]).raised
      {
        TurnsAreIndependent(old(ledger), page, turns, n);
        var result := Deliver(ledger[page[n]], turns[n]);
        ledger := ledger[page[n] := result.entry];
        if result.raised { return None; }
        if result.delivered { count := count + 1; }
      }
      return Some(count);
    }
  }

  /** Distinct receipts do not disturb each other. */
  lemma TurnsAreIndependent(ledger: Ledger, page: seq<string>, turns: seq<Turn>, n: nat)
    requires n < |page| == |turns| && DuePage(ledger, page)
    ensures page[n] in DeliveredUpTo(ledger, page, turns, n)
    ensures DeliveredUpTo(ledger, page, turns, n)[page[n]] == ledger[page[n]]
    ensures DeliveredUpTo(ledger, page, turns, n + 1)
      == DeliveredUpTo(ledger, page, turns, n)[page[n] := Deliver(ledger[page[n]], turns[n]).entry]
  {
    hide Deliver;
    var before := DeliveredUpTo(ledger, page, turns, n);
    var after := DeliveredUpTo(ledger, page, turns, n + 1);
    forall key | key in ledger ensures after[key] == before[page[n] := Deliver(ledger[page[n]], turns[n]).entry][key] {
      if key != page[n] && exists i :: 0 <= i < n + 1 && page[i] == key {
        var i :| 0 <= i < n + 1 && page[i] == key;
        assert i < n;
      }
    }
  }

  // ----- The life of one receipt -----

  /** One sweep as one receipt sees it: only pending and retried receipts are ever listed. */
  function Swept(e: Entry, turn: Turn): Entry {
    if Due(e.receipt.outcome) then Deliver(e, turn).entry else e
  }

  function Life(e: Entry, turns: seq<Turn>): Entry
    decreases |turns|
  {
    if turns == [] then e else Life(Swept(e, turns[0]), turns[1..])
  }

  const NEW_ENTRY := Entry(Receipt(Pending, 0, None), 0, 0, None)

  /** Outcomes are recorded by a clock that is not behind the one that decided the send. */
  predicate ClocksAgree(turns: seq<Turn>) {
    forall i :: 0 <= i < |turns| ==> turns[i].now <= turns[i].recordedAt
  }

  /** Total waiting time before the send that follows n recorded attempts. */
  function TotalBackoff(n: nat): real {
    if n == 0 then 0.0 else TotalBackoff(n - 1) + Backoff(n)
  }

  /** Counting, whatever the clocks say. */
  predicate CountInv(e: Entry) {
    && e.sends == e.receipt.attempts + e.lost
    && e.receipt.attempts <= MAX_DELIVERY_ATTEMPTS
    && (e.receipt.outcome.Pending? ==> e.receipt.attempts == 0)
    && (e.receipt.outcome.Retry? ==> 0 < e.receipt.attempts < MAX_DELIVERY_ATTEMPTS)
  }

  /** The backoff waited through since the first recorded attempt. */
  predicate BackoffInv(e: Entry) {
    && (e.receipt.attempts == 0 ==> e.firstAttemptAt.None?)
    && (e.receipt.outcome.Retry? && e.receipt.attempts > 0 ==>
          && e.receipt.lastAttemptAt.Some? && e.firstAttemptAt.Some?
          && e.receipt.lastAttemptAt.value >= e.firstAttemptAt.value + TotalBackoff(e.receipt.attempts - 1))
  }

  lemma SweptCounts(e: Entry, turn: Turn)
    requires CountInv(e)
    ensures CountInv(Swept(e, turn))
  {
    hide Waited;
  }

  lemma SweptWaits(e: Entry, turn: Turn)
    requires CountInv(e) && BackoffInv(e) && turn.now <= turn.recordedAt
    ensures BackoffInv(Swept(e, turn))
    ensures Swept(e, turn).sends > e.sends && e.receipt.attempts > 0 ==>
      e.firstAttemptAt.Some? && turn.now >= e.firstAttemptAt.value + TotalBackoff(e.receipt.attempts)
  {
    hide Backoff;
    var n := e.receipt.attempts;
    assert n > 0 ==> TotalBackoff(n) == TotalBackoff(n - 1) + Backoff(n);
  }

  lemma {:induction false} LifeCounts(e: Entry, turns: seq<Turn>)
    requires CountInv(e)
    ensures CountInv(Life(e, turns))
    decreases |turns|
  {
    hide CountInv, Swept;
    if turns != [] {
      SweptCounts(e, turns[0]);
      LifeCounts(Swept(e, turns[0]), turns[1..]);
    }
  }

  lemma {:induction false} LifeWaits(e: Entry, turns: seq<Turn>)
    requires CountInv(e) && BackoffInv(e) && ClocksAgree(turns)
    ensures BackoffInv(Life(e, turns))
    decreases |turns|
  {
    hide CountInv, BackoffInv, Swept;
    if turns != [] {
      SweptCounts(e, turns[0]);
      SweptWaits(e, turns[0]);
      LifeWaits(Swept(e, turns[0]), turns[1..]);
    }
  }

  lemma NewEntryHolds()
    ensures CountInv(NEW_ENTRY) && BackoffInv(NEW_ENTRY)
  {
  }

  /** Every send is a recorded attempt or one whose record was lost, and recorded attempts stop at five. */
  lemma SendsAreAttemptsOrLost(turns: seq<Turn>)
    ensures var e := Life(NEW_ENTRY, turns);
      e.sends == e.receipt.attempts + e.lost && e.receipt.attempts <= MAX_DELIVERY_ATTEMPTS
  {
    hide Life;
    NewEntryHolds();
    LifeCounts(NEW_ENTRY, turns);
  }

  predicate AllRecorded(turns: seq<Turn>) {
    forall i :: 0 <= i < |turns| ==> turns[i].recorded
  }

  lemma {:induction false} RecordedLosesNothing(e: Entry, turns: seq<Turn>)
    requires AllRecorded(turns)
    ensures Life(e, turns).lost == e.lost
    decreases |turns|
  {
    if turns != [] { RecordedLosesNothing(Swept(e, turns[0]), turns[1..]); }
  }

  /** While outcomes are recorded, a receipt is sent at most five times. */
  lemma AtMostFiveSends(turns: seq<Turn>)
    requires AllRecorded(turns)
    ensures Life(NEW_ENTRY, turns).sends <= MAX_DELIVERY_ATTEMPTS
  {
    SendsAreAttemptsOrLost(turns);
    RecordedLosesNothing(NEW_ENTRY, turns);
  }

  /** A send that Telegram refuses and whose outcome the database then refuses. */
  const LOST_TURN := Turn(0.0, Yes, Yes, Yes, true, false, false, 0.0)

  function LostTurns(n: nat): seq<Turn> {
    if n == 0 then [] else [LOST_TURN] + LostTurns(n - 1)
  }

  /** "At most five sends" is false when recording fails: the same receipt is then sent any number of times. */
  lemma {:induction false} LostRecordsAllowAnyNumberOfSends(e: Entry, n: nat)
    requires e.receipt == NEW_ENTRY.receipt
    ensures ClocksAgree(LostTurns(n))
    ensures Life(e, LostTurns(n)).sends == e.sends + n && Life(e, LostTurns(n)).lost == e.lost + n
    decreases n
  {
    if n > 0 {
      var next := Swept(e, LOST_TURN);
      assert LostTurns(n)[1..] == LostTurns(n - 1);
      LostRecordsAllowAnyNumberOfSends(next, n - 1);
    }
  }

  /** After a final outcome nothing is ever sent again. */
  lemma {:induction false} FinalOutcomesStay(e: Entry, turns: seq<Turn>)
    requires !Due(e.receipt.outcome)
    ensures Life(e, turns) == e
    decreases |turns|
  {
    if turns != [] { FinalOutcomesStay(e, turns[1..]); }
  }

  /** The fifth recorded attempt, delivered or not, is the last: its outcome is final. */
  lemma FifthAttemptIsFinal(turns: seq<Turn>)
    requires Life(NEW_ENTRY, turns).receipt.attempts == MAX_DELIVERY_ATTEMPTS
    ensures !Due(Life(NEW_ENTRY, turns).receipt.outcome)
  {
    hide Life;
    NewEntryHolds();
    LifeCounts(NEW_ENTRY, turns);
  }

  lemma BackoffTable()
    ensures Backoff(0) == 30.0 && Backoff(1) == 30.0 && Backoff(2) == 60.0 && Backoff(3) == 120.0 && Backoff(4) == 240.0
    ensures Backoff(5) == 300.0
  {
    assert Doubled(30.0, 0) == 30.0;
    assert Doubled(30.0, 1) == 60.0;
    assert Doubled(30.0, 2) == 120.0;
    assert Doubled(30.0, 3) == 240.0;
    assert Doubled(30.0, 4) == 480.0;
  }

  lemma {:induction false} DoublingGrows(seconds: real, m: nat, n: nat)
    requires seconds > 0.0 && m <= n
    ensures 0.0 < Doubled(seconds, m) <= Doubled(seconds, n)
    decreases n
  {
    if m < n { DoublingGrows(seconds, m, n - 1); }
    else if m > 0 { DoublingGrows(seconds, m - 1, m - 1); }
  }

  /** Waiting never shrinks with more attempts and never leaves its bounds. */
  lemma BackoffIsMonotone(m: nat, n: nat)
    requires m <= n
    ensures BASE_BACKOFF_SECONDS <= Backoff(m) <= Backoff(n) <= MAX_BACKOFF_SECONDS
  {
    var a, b := if m == 0 then 0 else m - 1, if n == 0 then 0 else n - 1;
    DoublingGrows(BASE_BACKOFF_SECONDS, a, b);
    DoublingGrows(BASE_BACKOFF_SECONDS, 0, a);
  }

  /** The fifth attempt is sent at least seven and a half minutes after the first one was recorded. */
  lemma FifthSendWaits(turns: seq<Turn>, turn: Turn)
    requires ClocksAgree(turns) && turn.now <= turn.recordedAt
    requires var e := Life(NEW_ENTRY, turns); e.receipt.attempts == 4 && Swept(e, turn).sends > e.sends
    ensures var e := Life(NEW_ENTRY, turns); e.firstAttemptAt.Some? && turn.now >= e.firstAttemptAt.value + 450.0
  {
    hide Backoff, TotalBackoff, Life, Swept, CountInv, BackoffInv;
    NewEntryHolds();
    LifeCounts(NEW_ENTRY, turns);
    LifeWaits(NEW_ENTRY, turns);
    SweptWaits(Life(NEW_ENTRY, turns), turn);
    FourWaits();
  }

  lemma FourWaits()
    ensures TotalBackoff(4) == 450.0
  {
    hide Backoff;
    BackoffTable();
    assert TotalBackoff(4) == TotalBackoff(3) + Backoff(4);
    assert TotalBackoff(3) == TotalBackoff(2) + Backoff(3);
    assert TotalBackoff(2) == TotalBackoff(1) + Backoff(2);
    assert TotalBackoff(1) == TotalBackoff(0) + Backoff(1);
  }

  // ----- One turn: when a receipt is sent, and what is stored -----

  /** The waiting time since the last recorded attempt has passed, if there was one. */
  predicate TimeHasCome(r: Receipt, now: real) {
    r.attempts > 0 && r.lastAttemptAt.Some? ==> now - r.lastAttemptAt.value >= Backoff(r.attempts)
  }

  predicate GatesOpen(turn: Turn) {
    turn.preference.Yes? && turn.reachable.Yes? && turn.body.Yes? && turn.addressed
  }

  /** The gates are asked in this order, and the first that is not open decides. */
  predicate StopsAt(turn: Turn, gate: int) {
    match gate
    case 0 => !turn.preference.Yes?
    case 1 => turn.preference.Yes? && !turn.reachable.Yes?
    case 2 => turn.preference.Yes? && turn.reachable.Yes? && !turn.body.Yes?
    case 3 => turn.preference.Yes? && turn.reachable.Yes? && turn.body.Yes? && !turn.addressed
    case _ => false
  }

  /** The gate that is reached raises. */
  predicate CannotBeAsked(turn: Turn) {
    || (StopsAt(turn, 0) && turn.preference.Fails?)
    || (StopsAt(turn, 1) && turn.reachable.Fails?)
    || (StopsAt(turn, 2) && turn.body.Fails?)
  }

  /** A due receipt is sent exactly when its time has come and every gate is open, and then exactly once. */
  lemma SentExactly(e: Entry, turn: Turn)
    ensures Swept(e, turn).sends
      == e.sends + if Due(e.receipt.outcome) && TimeHasCome(e.receipt, turn.now) && GatesOpen(turn) then 1 else 0
  {
    hide Backoff;
  }

  /** A receipt whose time has not come is left alone; a gate that cannot be asked raises and stores nothing. */
  lemma LeftAlone(e: Entry, turn: Turn)
    ensures !TimeHasCome(e.receipt, turn.now) ==> Deliver(e, turn) == Handled(false, false, e)
    ensures TimeHasCome(e.receipt, turn.now) && CannotBeAsked(turn) ==> Deliver(e, turn) == Handled(false, true, e)
    ensures TimeHasCome(e.receipt, turn.now) && !turn.recorded && !GatesOpen(turn) ==>
      Deliver(e, turn) == Handled(false, true, e)
  {
    hide Backoff;
  }

  /** A closed gate ends the receipt without a send: unwanted or without a text skipped, otherwise unreachable. */
  lemma ClosedGateEnds(e: Entry, turn: Turn)
    requires TimeHasCome(e.receipt, turn.now) && turn.recorded
    ensures (StopsAt(turn, 0) && turn.preference.No?) || (StopsAt(turn, 2) && turn.body.No?) ==>
      Deliver(e, turn)
      == Handled(false, false, e.(receipt := Receipt(Skipped, e.receipt.attempts, Some(turn.recordedAt))))
    ensures (StopsAt(turn, 1) && turn.reachable.No?) || StopsAt(turn, 3) ==>
      Deliver(e, turn)
      == Handled(false, false, e.(receipt := Receipt(Unreachable, e.receipt.attempts, Some(turn.recordedAt))))
  {
    hide Backoff;
  }

  /** A recorded send counts one attempt: delivered when accepted, retried when refused, unreachable the fifth time. */
  lemma SendOutcome(e: Entry, turn: Turn)
    requires Due(e.receipt.outcome) && TimeHasCome(e.receipt, turn.now) && GatesOpen(turn)
    ensures var handled := Deliver(e, turn); var attempts := e.receipt.attempts + 1;
      && handled.raised == !turn.recorded && handled.delivered == (turn.recorded && turn.accepted)
      && (!turn.recorded ==> handled.entry.receipt == e.receipt && handled.entry.lost == e.lost + 1)
      && (turn.recorded ==>
            handled.entry.lost == e.lost
            && handled.entry.receipt
               == Receipt(
                    if turn.accepted then Delivered else if attempts < 5 then Retry else Unreachable,
                    attempts, Some(turn.recordedAt)))
  {
    hide Backoff;
  }

  // ----- Accepted once -----

  /** The turn sends, Telegram accepts, and the outcome is recorded. */
  predicate Accepted(e: Entry, turn: Turn) {
    Swept(e, turn).sends > e.sends && turn.accepted && turn.recorded
  }

  function AcceptedSends(e: Entry, turns: seq<Turn>): nat
    decreases |turns|
  {
    if turns == [] then 0
    else (if Accepted(e, turns[0]) then 1 else 0) + AcceptedSends(Swept(e, turns[0]), turns[1..])
  }

  lemma {:induction false} NothingAfterFinal(e: Entry, turns: seq<Turn>)
    requires !Due(e.receipt.outcome)
    ensures AcceptedSends(e, turns) == 0
    decreases |turns|
  {
    if turns != [] { NothingAfterFinal(e, turns[1..]); }
  }

  /**
   * Over every life an accepted send whose outcome was recorded is the last send: there is at most one, and the
   * receipt is then delivered for good.
   */
  lemma {:induction false} AcceptedIsTheLast(e: Entry, turns: seq<Turn>)
    ensures AcceptedSends(e, turns) <= 1
    ensures AcceptedSends(e, turns) == 1 ==> Life(e, turns).receipt.outcome.Delivered?
    decreases |turns|
  {
    hide Deliver, Swept;
    if turns != [] {
      var next := Swept(e, turns[0]);
      if Accepted(e, turns[0]) {
        AcceptedIsDelivered(e, turns[0]);
        NothingAfterFinal(next, turns[1..]);
        FinalOutcomesStay(next, turns[1..]);
      } else {
        AcceptedIsTheLast(next, turns[1..]);
      }
    }
  }

  lemma AcceptedIsDelivered(e: Entry, turn: Turn)
    requires Accepted(e, turn)
    ensures Swept(e, turn).receipt.outcome.Delivered?
  {
    hide Backoff;
  }
}
