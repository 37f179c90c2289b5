/** Clearing the durable work of a disabled feature: cancel, drop ciphertext, release reservations. */
module FeatureClearing {
  import opened Wrappers
  import opened Usage
  import opened Jobs
  import opened AdmissionState
  import opened Budgets

  predicate Cancellable(state: TicketState) {
    Queued(state) || state.Running?
  }

  function AfterCancel(tickets: map<string, AdmissionRecord>, ticket: AdmissionRecord): map<string, AdmissionRecord> {
    var id := ticket.envelope.jobId;
    if Cancellable(ticket.state) && id in tickets then tickets[id := Applied(tickets[id], Cancel)] else tickets
  }

  /** Tickets after the entries of a page had their turn. */
  function CancelAll(tickets: map<string, AdmissionRecord>, page: seq<AdmissionRecord>): map<string, AdmissionRecord> {
    if page == [] then tickets else AfterCancel(CancelAll(tickets, page[..|page| - 1]), page[|page| - 1])
  }

  /** The ticket as read back, or the page's own copy when it is gone. */
  function Updated(tickets: map<string, AdmissionRecord>, ticket: AdmissionRecord): AdmissionRecord {
    if ticket.envelope.jobId in tickets then tickets[ticket.envelope.jobId] else ticket
  }

  /** No owner will come back to this work. */
  predicate Ended(r: AdmissionRecord, now: real) {
    r.state.Terminal? || (r.state.Cancelling? && now >= r.envelope.deadline)
  }

  function ReadBack(tickets: map<string, AdmissionRecord>, page: seq<AdmissionRecord>, i: nat): AdmissionRecord
    requires i < |page|
  {
    Updated(CancelAll(tickets, page[..i + 1]), page[i])
  }

  /** Entry i asks the budgets to release a reservation. */
  predicate AsksRelease(tickets: map<string, AdmissionRecord>, page: seq<AdmissionRecord>, clock: seq<real>, i: nat)
    requires i < |page| == |clock|
  {
    Ended(ReadBack(tickets, page, i), clock[i]) && ReadBack(tickets, page, i).budgetReserved
  }

  function Dropped(
    tickets: map<string, AdmissionRecord>, page: seq<AdmissionRecord>, clock: seq<real>, n: nat): set<string>
    requires n <= |page| == |clock|
  {
    set i | 0 <= i < n && Ended(ReadBack(tickets, page, i), clock[i]) :: ReadBack(tickets, page, i).envelope.payloadRef
  }

  class FeatureJobRunner {
    var tickets: map<string, AdmissionRecord>
    var reservations: map<string, Reservation>
    var payloads: set<string>

    constructor ()
      ensures tickets == map[] && reservations == map[] && payloads == {}
    {
      tickets, reservations, payloads := map[], map[], {};
    }

    /**
     * Handle a page of one feature's pending tickets. The release call carries no amounts, so the
     * budgets refuse it: the first entry that makes it ends the whole pass, and no reservation changes.
     */
    method ClearFeature(page: seq<AdmissionRecord>, clock: seq<real>, verified: bool)
      returns (cleared: Result<nat, BudgetError>)
      requires |clock| == |page|
      modifies this
      ensures reservations == old(reservations)
      ensures cleared.Success? <==> forall i :: 0 <= i < |page| ==> !AsksRelease(old(tickets), page, clock, i)
      ensures cleared.Success? ==>
        && cleared.value == |page|
        && tickets == CancelAll(old(tickets), page)
        && payloads == old(payloads) - Dropped(old(tickets), page, clock, |page|)
      ensures cleared.Failure? ==> exists i ::
        && 0 <= i < |page| && AsksRelease(old(tickets), page, clock, i)
        && (forall j :: 0 <= j < i ==> !AsksRelease(old(tickets), page, clock, j))
        && tickets == CancelAll(old(tickets), page[..i + 1])
        && payloads == old(payloads) - Dropped(old(tickets), page, clock, i + 1)
    {
      hide Applied, Ended;
      var count := 0;
      for k := 0 to |page|
        invariant count == k && reservations == old(reservations)
        invariant tickets == CancelAll(old(tickets), page[..k])
        invariant payloads == old(payloads) - Dropped(old(tickets), page, clock, k)
        invariant forall i :: 0 <= i < k ==> !AsksRelease(old(tickets), page, clock, i)
      {
        var id := page[k].envelope.jobId;
        assert page[..k + 1][..k] == page[..k];
        if Cancellable(page[k].state) && id in tickets {
          tickets := tickets[id := Applied(tickets[id], Cancel)];
        }
        var updated := Updated(tickets, page[k]);
        assert updated == ReadBack(old(tickets), page, k);
        if Ended(updated, clock[k]) {
          payloads := payloads - {updated.envelope.payloadRef};
          if updated.budgetReserved {
            var held := if id in reservations then Some(reservations[id]) else None;
            var (answer, after) := FinishReservation(held, [], clock[k], verified);
            EmptyReleaseIsRefused(held, clock[k], verified);
            assert AsksRelease(old(tickets), page, clock, k);
            return Failure(answer.error);
          }
        }
        count := count + 1;
      }
      assert page[..|page|] == page;
      return Success(count);
    }
  }

  /** A release call without amounts is refused whatever the reservation is. */
  lemma EmptyReleaseIsRefused(held: Option<Reservation>, now: real, verified: bool)
    ensures FinishReservation(held, [], now, verified) == (Failure(InvalidSettlement), held)
  {
  }

  predicate DistinctPage(page: seq<AdmissionRecord>) {
    forall i, j :: 0 <= i < j < |page| ==> page[i].envelope.jobId != page[j].envelope.jobId
  }

  lemma {:induction false} CancelAllElsewhere(
    tickets: map<string, AdmissionRecord>, page: seq<AdmissionRecord>, id: string)
    requires forall i :: 0 <= i < |page| ==> page[i].envelope.jobId != id
    ensures id in CancelAll(tickets, page) <==> id in tickets
    ensures id in tickets ==> CancelAll(tickets, page)[id] == tickets[id]
  {
    hide Applied;
    if page != [] { CancelAllElsewhere(tickets, page[..|page| - 1], id); }
  }

  /** The work ended already, or its deadline passed under an owner. */
  predicate OutOfHands(r: AdmissionRecord, now: real) {
    r.state.Terminal? || ((r.state.Running? || r.state.Cancelling?) && now >= r.envelope.deadline)
  }

  /**
   * Exactly which tickets stop the clearing pass: those that reserved budget and have
   * ended, or whose deadline passed while still running or cancelling.
   */
  lemma ClearingStopsAt(tickets: map<string, AdmissionRecord>, page: seq<AdmissionRecord>, clock: seq<real>, i: nat)
    requires i < |page| == |clock| && DistinctPage(page)
    requires page[i].envelope.jobId in tickets && tickets[page[i].envelope.jobId] == page[i]
    requires Sound(page[i])
    ensures AsksRelease(tickets, page, clock, i) <==>
      page[i].budgetReserved && OutOfHands(page[i], clock[i])
  {
    hide Sound;
    var r := page[i];
    assert page[..i + 1][..i] == page[..i];
    CancelAllElsewhere(tickets, page[..i], r.envelope.jobId);
  }

  /** A page clears in full exactly when no entry holds budget after it ended or ran past its deadline. */
  lemma ClearingCompletesExactly(tickets: map<string, AdmissionRecord>, page: seq<AdmissionRecord>, clock: seq<real>)
    requires |page| == |clock| && DistinctPage(page)
    requires forall i :: 0 <= i < |page| ==>
      page[i].envelope.jobId in tickets && tickets[page[i].envelope.jobId] == page[i]
      && Sound(page[i])
    ensures (forall i :: 0 <= i < |page| ==> !AsksRelease(tickets, page, clock, i)) <==>
      (forall i :: 0 <= i < |page| ==>
        !(page[i].budgetReserved && OutOfHands(page[i], clock[i])))
  {
    hide Sound, AsksRelease;
    forall i | 0 <= i < |page|
      ensures AsksRelease(tickets, page, clock, i) <==>
        page[i].budgetReserved && OutOfHands(page[i], clock[i])
    {
      ClearingStopsAt(tickets, page, clock, i);
    }
  }

  // ----- A pass that does not complete -----

  function LateRunner(): AdmissionRecord {
    AdmissionRecord(
      SAMPLE_ENVELOPE, Running, Media, 10, 1, "owner", Schedule(false, false, 0.0, 0.0), None, None, true,
      Notices(false, false, false, false, false))
  }

  function WaitingJob(): AdmissionRecord {
    InitialRecord(SAMPLE_ENVELOPE.(jobId := "job-2"), 10)
  }

  /**
   * "Clearing cancels the pending work of a disabled feature" is false: a reserved running ticket past
   * its deadline ends the pass, and the waiting job behind it on the page is never cancelled.
   */
  lemma ClearingCanStopEarly()
    ensures var tickets := map["job-1" := LateRunner(), "job-2" := WaitingJob()];
      var page := [LateRunner(), WaitingJob()];
      && Sound(LateRunner()) && DistinctPage(page)
      && AsksRelease(tickets, page, [300.0, 300.0], 0)
      && "job-2" in CancelAll(tickets, page[..1]) && CancelAll(tickets, page[..1])["job-2"].state.Accepted?
      && Applied(WaitingJob(), Cancel).state.Terminal?
  {
    var tickets := map["job-1" := LateRunner(), "job-2" := WaitingJob()];
    var page := [LateRunner(), WaitingJob()];
    LateRunnerIsSound();
    assert "job-1"[4] != "job-2"[4];
    hide Sound;
    ClearingStopsAt(tickets, page, [300.0, 300.0], 0);
    assert page[..1] == [LateRunner()];
    assert [LateRunner()][..0] == [];
    assert CancelAll(tickets, []) == tickets;
  }

  lemma LateRunnerIsSound()
    ensures Sound(LateRunner())
  {
    hide ValidEnvelope;
    SampleEnvelopeIsValid();
    assert TechnicalId("owner");
  }

  // ----- What a pass does to each entry -----

  /** A page read just now: distinct readable tickets as stored. */
  predicate FreshPage(tickets: map<string, AdmissionRecord>, page: seq<AdmissionRecord>) {
    && DistinctPage(page)
    && forall i :: 0 <= i < |page| ==>
         page[i].envelope.jobId in tickets && tickets[page[i].envelope.jobId] == page[i] && Sound(page[i])
  }

  /** At its turn a queued ticket ends as cancelled or prepares a zero settlement; a running one is asked to stop. */
  lemma {:induction false} ClearsExactly(tickets: map<string, AdmissionRecord>, page: seq<AdmissionRecord>, i: nat)
    requires i < |page| && FreshPage(tickets, page)
    ensures var r := page[i]; var after := ReadBack(tickets, page, i);
      && CancelAll(tickets, page[..i + 1]) == CancelAll(tickets, page[..i])[r.envelope.jobId := after]
      && after ==
         if r.state.Running? then r.(state := Cancelling)
         else if Queued(r.state) && r.budgetReserved then
           r.(state := Settling, token := RECOVERY_TOKEN, settlement := Some(ZeroIntent(Cancelled)))
         else if Queued(r.state) then
           r.(state := Terminal, outcome := Some(Cancelled), notices := r.notices.(terminalRequested := true))
         else r
  {
    hide Sound;
    var r := page[i];
    assert page[..i + 1][..i] == page[..i];
    CancelAllElsewhere(tickets, page[..i], r.envelope.jobId);
    assert CancelAll(tickets, page[..i])[r.envelope.jobId := r] == CancelAll(tickets, page[..i]);
  }

  /** The work of an entry is over once it had its turn. */
  predicate Over(r: AdmissionRecord, now: real) {
    || r.state.Terminal? || (Queued(r.state) && !r.budgetReserved)
    || ((r.state.Running? || r.state.Cancelling?) && now >= r.envelope.deadline)
  }

  /** A completed pass drops exactly the payloads of the work that is over. */
  lemma {:induction false} DropsExactly(
    tickets: map<string, AdmissionRecord>, page: seq<AdmissionRecord>, clock: seq<real>, payload: string)
    requires |page| == |clock| && FreshPage(tickets, page)
    ensures payload in Dropped(tickets, page, clock, |page|) <==>
      exists i :: 0 <= i < |page| && page[i].envelope.payloadRef == payload && Over(page[i], clock[i])
  {
    hide Sound, CancelAll, FreshPage;
    forall i | 0 <= i < |page|
      ensures Ended(ReadBack(tickets, page, i), clock[i]) <==> Over(page[i], clock[i])
      ensures ReadBack(tickets, page, i).envelope.payloadRef == page[i].envelope.payloadRef
    {
      ClearsExactly(tickets, page, i);
    }
    if payload in Dropped(tickets, page, clock, |page|) {
      var i :| 0 <= i < |page| && Ended(ReadBack(tickets, page, i), clock[i])
        && ReadBack(tickets, page, i).envelope.payloadRef == payload;
      assert page[i].envelope.payloadRef == payload;
    }
    if i :| 0 <= i < |page| && page[i].envelope.payloadRef == payload && Over(page[i], clock[i]) {
      assert ReadBack(tickets, page, i).envelope.payloadRef == payload;
    }
  }
}
