/**
 * What a recovery sweep sends and counts: the message of waiting work goes out again exactly when its time,
 * stage and attempt allow it, and every unit of the answer is a ticket that ended or a message sent.
 */
module RecoveryPublishing {
  import opened Wrappers
  import opened Usage
  import opened Jobs
  import opened AdmissionState
  import opened Budgets
  import opened UsageLedger
  import opened WorkerLifecycle
  import opened RecoveryProgress
  import opened TicketDiagram

  /** The entry's snapshot is due, and the ticket as stored allows this stage and attempt to go out again now. */
  predicate IsDue(s: Stores, ticket: AdmissionRecord, a: Answers) {
    && Queued(ticket.state) && ticket.schedule.notBefore <= a.now < ticket.envelope.deadline
    && a.admissionReads && ticket.envelope.jobId in s.tickets
    && MayRepublish(s.tickets[ticket.envelope.jobId], ticket.stage, ticket.attempt, a.now)
  }

  /** The broker gets the message: the job still has time when it is published. */
  predicate Sends(s: Stores, ticket: AdmissionRecord, a: Answers) {
    IsDue(s, ticket, a) && a.publishNow < ticket.envelope.deadline
  }

  function Sent(s: Stores, ticket: AdmissionRecord, a: Answers): seq<(JobEnvelope, JobStage)> {
    if Sends(s, ticket, a) then [(ticket.envelope, ticket.stage)] else []
  }

  lemma {:induction false} ReconciledSendsNothing(s: Stores, ticket: AdmissionRecord, a: Answers)
    ensures Reconciled(s, ticket, a).1.published == s.published
  {
    hide Transact, Stored, ApplyBatch, FinishReservation, ValidEvent;
  }

  /**
   * Handling an entry publishes exactly its own envelope and stage when it is due and in time, and nothing
   * otherwise; an allowed entry changes only the time of its next try, and is counted when it was sent.
   */
  lemma {:induction false} PublishesExactly(s: Stores, ticket: AdmissionRecord, a: Answers)
    requires Readable(s)
    ensures var (answer, after) := Recovered(s, ticket, a); var id := ticket.envelope.jobId;
      && after.published == s.published + Sent(s, ticket, a)
      && (IsDue(s, ticket, a) ==>
            && answer == Success(if Sends(s, ticket, a) then 1 else 0)
            && after.tickets == s.tickets[id := s.tickets[id].(
                 schedule := s.tickets[id].schedule.(retryAt := a.now + RECOVERY_RETRY_SECONDS))]
            && after.reservations == s.reservations && after.ledger == s.ledger)
  {
    hide Reconciled, Transact, Stored, Sound;
    var id := ticket.envelope.jobId;
    ReconciledSendsNothing(s, ticket, a);
    if Queued(ticket.state) && a.now >= ticket.envelope.deadline && id in s.tickets {
      var claimed := PutTicket(s, id, Applied(s.tickets[id], Claim(ticket.stage, a.now, "expiry", None)));
      ReconciledSendsNothing(claimed, claimed.tickets[id], a);
    }
    if Queued(ticket.state) && a.now < ticket.envelope.deadline && id in s.tickets {
      RepublishAnswers(s.tickets[id], ticket, a.now);
    }
  }

  lemma {:induction false} RepublishAnswers(r: AdmissionRecord, ticket: AdmissionRecord, now: real)
    requires Sound(r)
    ensures var t := Republish(ticket.stage, ticket.attempt, now); var change := Transact(r, t);
      && (change.Raised? <==> now < 0.0)
      && (change.Change? ==> (change.success <==> MayRepublish(r, ticket.stage, ticket.attempt, now)))
      && Stored(r, change) ==
         if MayRepublish(r, ticket.stage, ticket.attempt, now)
         then r.(schedule := r.schedule.(retryAt := now + RECOVERY_RETRY_SECONDS)) else r
  {
    hide ValidIntent, ValidEnvelope, SettlementFits;
  }

  /** Once allowed, the same stage and attempt is not allowed again for five seconds, whoever looks at it. */
  lemma {:induction false} AllowedOnceInFiveSeconds(
    s: Stores, ticket: AdmissionRecord, a: Answers, again: AdmissionRecord, b: Answers)
    requires Readable(s) && IsDue(s, ticket, a)
    requires again.envelope.jobId == ticket.envelope.jobId && b.now < a.now + RECOVERY_RETRY_SECONDS
    ensures var after := Recovered(s, ticket, a).1;
      !IsDue(after, again, b) && Recovered(after, again, b).1.published == after.published
  {
    hide Recovered, Sound;
    PublishesExactly(s, ticket, a);
    RecoveredKeepsReadable(s, ticket, a);
    PublishesExactly(Recovered(s, ticket, a).1, again, b);
  }

  // ----- A whole sweep -----

  /** What the first n entries of a page send, told from the stores before the sweep. */
  function SentBy(s: Stores, page: seq<AdmissionRecord>, answers: seq<Answers>, n: nat): seq<(JobEnvelope, JobStage)>
    requires n <= |page| == |answers|
  {
    if n == 0 then [] else SentBy(s, page, answers, n - 1) + Sent(s, page[n - 1], answers[n - 1])
  }

  /** A sweep sends exactly the due messages of its page, each once and in order, whatever else happens in it. */
  lemma {:induction false} SweepPublishesExactly(
    s: Stores, page: seq<AdmissionRecord>, answers: seq<Answers>, reclaim: Option<Reclaim>)
    requires Readable(s) && |page| == |answers| && DistinctPage(page)
    ensures Swept(s, page, answers, reclaim).1.published == s.published + SentBy(s, page, answers, |page|)
  {
    hide SweptPage, Readable;
    assert page[..|page|] == page && answers[..|answers|] == answers;
    PagePublishes(s, page, answers, |page|);
  }

  lemma {:induction false} PagePublishes(s: Stores, page: seq<AdmissionRecord>, answers: seq<Answers>, n: nat)
    requires Readable(s) && n <= |page| == |answers| && DistinctPage(page)
    ensures SweptPage(s, page[..n], answers[..n]).1.published == s.published + SentBy(s, page, answers, n)
    decreases n
  {
    hide Readable, Recovered, MayRepublish;
    if n > 0 {
      var m := n - 1;
      var t := SweptPage(s, page[..m], answers[..m]).1;
      assert page[..n][..m] == page[..m] && answers[..n][..m] == answers[..m];
      PagePublishes(s, page, answers, m);
      SweptKeepsReadable(s, page[..m], answers[..m]);
      NotEarlier(page, m);
      SweepTouchesOnlyItsPage(s, page[..m], answers[..m], page[m].envelope.jobId);
      PublishesExactly(t, page[m], answers[m]);
    }
  }

  // ----- What a sweep counts -----

  /** Entry i's ticket was not over before the sweep and is over after it. */
  predicate Ends(s: Stores, page: seq<AdmissionRecord>, answers: seq<Answers>, i: nat)
    requires i < |page| == |answers|
  {
    var id := page[i].envelope.jobId; var after := SweptPage(s, page, answers).1;
    id in after.tickets && !page[i].state.Terminal? && after.tickets[id].state.Terminal?
  }

  /** Handling a current entry counts one exactly when its ticket ends or its message is sent. */
  lemma {:induction false} EntryCounts(s: Stores, ticket: AdmissionRecord, a: Answers)
    requires Readable(s) && ticket.envelope.jobId in s.tickets && s.tickets[ticket.envelope.jobId] == ticket
    ensures var (answer, after) := Recovered(s, ticket, a); var id := ticket.envelope.jobId;
      id in after.tickets
      && CountOf(answer)
         == if (!ticket.state.Terminal? && after.tickets[id].state.Terminal?) || Sends(s, ticket, a) then 1 else 0
  {
    hide Transact, Stored, Sound, Recovered;
    var id := ticket.envelope.jobId;
    SoundHere(s, id);
    PublishesExactly(s, ticket, a);
    RecoveredEvolves(s, ticket, a);
    if ticket.state.Settling? { SettlingCounts(s, ticket, a); }
    else if Queued(ticket.state) && a.now >= ticket.envelope.deadline { OverdueCounts(s, ticket, a); }
    else { QuietCounts(s, ticket, a); }
  }

  lemma {:induction false} SettlementCounts(s: Stores, ticket: AdmissionRecord, a: Answers)
    requires Readable(s) && ticket.envelope.jobId in s.tickets && s.tickets[ticket.envelope.jobId] == ticket
    requires ticket.state.Settling?
    ensures var (failure, after) := Reconciled(s, ticket, a); var id := ticket.envelope.jobId;
      id in after.tickets && (failure.None? <==> after.tickets[id].state.Terminal?)
  {
    hide Sound, ApplyBatch, FinishReservation, ValidEvent;
    SoundHere(s, ticket.envelope.jobId);
  }

  lemma {:induction false} SettlingCounts(s: Stores, ticket: AdmissionRecord, a: Answers)
    requires Readable(s) && ticket.envelope.jobId in s.tickets && s.tickets[ticket.envelope.jobId] == ticket
    requires ticket.state.Settling?
    ensures var (answer, after) := Recovered(s, ticket, a); var id := ticket.envelope.jobId;
      id in after.tickets && CountOf(answer) == if after.tickets[id].state.Terminal? then 1 else 0
  {
    hide Reconciled;
    SettlementCounts(s, ticket, a);
    assert CountOf(Recovered(s, ticket, a).0) == if Reconciled(s, ticket, a).0.None? then 1 else 0;
  }

  lemma {:induction false} OverdueCounts(s: Stores, ticket: AdmissionRecord, a: Answers)
    requires Readable(s) && ticket.envelope.jobId in s.tickets && s.tickets[ticket.envelope.jobId] == ticket
    requires Queued(ticket.state) && a.now >= ticket.envelope.deadline
    ensures var (answer, after) := Recovered(s, ticket, a); var id := ticket.envelope.jobId;
      id in after.tickets && CountOf(answer) == if after.tickets[id].state.Terminal? then 1 else 0
  {
    hide Sound, Reconciled, Transact;
    var id := ticket.envelope.jobId;
    var claim := Claim(ticket.stage, a.now, "expiry", None);
    SoundLifetime(ticket);
    ExpiringClaim(ticket, a.now);
    var claimed := PutTicket(s, id, Applied(ticket, claim));
    if ticket.budgetReserved && a.admissionReads {
      SettlementCounts(claimed, claimed.tickets[id], a);
      assert CountOf(ExpiredEntry(s, ticket, a).0)
        == if Reconciled(claimed, claimed.tickets[id], a).0.None? then 1 else 0;
    }
  }

  lemma SoundLifetime(r: AdmissionRecord)
    requires Sound(r)
    ensures 0.0 <= r.envelope.acceptedAt < r.envelope.deadline
  {
  }

  lemma {:induction false} QuietCounts(s: Stores, ticket: AdmissionRecord, a: Answers)
    requires Readable(s) && ticket.envelope.jobId in s.tickets && s.tickets[ticket.envelope.jobId] == ticket
    requires !ticket.state.Settling? && !(Queued(ticket.state) && a.now >= ticket.envelope.deadline)
    ensures var (answer, after) := Recovered(s, ticket, a); var id := ticket.envelope.jobId;
      id in after.tickets && after.tickets[id].state == ticket.state
      && CountOf(answer) == if Sends(s, ticket, a) then 1 else 0
  {
    hide Transact, Stored, Sound;
    RepublishAnswers(ticket, ticket, a.now);
  }

  /** The entries that ended or were sent, among the first n. */
  function Counted(s: Stores, page: seq<AdmissionRecord>, answers: seq<Answers>, n: nat): nat
    requires n <= |page| == |answers|
  {
    if n == 0 then 0
    else
      Counted(s, page, answers, n - 1)
      + if Ends(s, page, answers, n - 1) || Sends(s, page[n - 1], answers[n - 1]) then 1 else 0
  }

  /** The answer of a sweep over a fresh page counts the tickets it ended, the messages it sent and the reclaims. */
  lemma {:induction false} SweepCountsExactly(
    s: Stores, page: seq<AdmissionRecord>, answers: seq<Answers>, reclaim: Option<Reclaim>)
    requires Readable(s) && |page| == |answers| && FreshPage(s, page)
    ensures Swept(s, page, answers, reclaim).0
      == Counted(s, page, answers, |page|) + if reclaim.Some? then reclaim.value.count else 0
  {
    hide SweptPage, Readable, FreshPage, Counted;
    assert page[..|page|] == page && answers[..|answers|] == answers;
    PageCounts(s, page, answers, |page|);
  }

  lemma {:induction false} PageCounts(s: Stores, page: seq<AdmissionRecord>, answers: seq<Answers>, n: nat)
    requires Readable(s) && n <= |page| == |answers| && FreshPage(s, page)
    ensures SweptPage(s, page[..n], answers[..n]).0 == Counted(s, page, answers, n)
    decreases n
  {
    hide Readable, Recovered, MayRepublish;
    if n > 0 {
      var m := n - 1;
      var id := page[m].envelope.jobId;
      var t := SweptPage(s, page[..m], answers[..m]).1;
      assert page[..n][..m] == page[..m] && answers[..n][..m] == answers[..m];
      PageCounts(s, page, answers, m);
      EveryEntryIsHandled(s, page, answers, m);
      FreshEntry(s, page, m);
      EntryCounts(t, page[m], answers[m]);
    }
  }
}
