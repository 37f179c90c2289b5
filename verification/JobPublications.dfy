/** Which broker messages a job's own actions send: first publication, handoff and recovery, told from the ticket. */
module JobPublications {
  import opened Wrappers
  import opened Jobs
  import opened AdmissionState
  import opened Budgets
  import opened SettlementProtocol
  import opened JobGuarantees
  import opened TicketDiagram

  /** A sweep whose calls answer, up to the publication. */
  function SweepOfQueued(c: Cell, pid: nat, first: Input, second: Input, third: Input): Cell {
    Act(Act(Act(Act(c, Sweep(pid)), Step(pid, first)), Step(pid, second)), Step(pid, third))
  }

  /** The snapshot decides: work that is due goes on to ask the ticket. */
  lemma {:induction false} SweepLooks(c: Cell, pid: nat, first: Input)
    requires pid !in c.processes && first.ok && Queued(c.record.state) && first.now < c.record.envelope.deadline
    ensures var after := Act(Act(c, Sweep(pid)), Step(pid, first)); var r := c.record;
      && after.record == r && after.history == c.history
      && (if first.now < r.schedule.notBefore then pid !in after.processes
          else pid in after.processes
               && after.processes[pid] == Process("", r.envelope, r.stage, Republishing(r.stage, r.attempt, first.now)))
  {
  }

  lemma {:induction false} RepublishingAsks(c: Cell, pid: nat, input: Input, stage: JobStage, attempt: int, now: real)
    requires pid in c.processes && c.processes[pid].pc == Republishing(stage, attempt, now) && input.ok
    requires Sound(c.record) && 0.0 <= now
    ensures var after := Act(c, Step(pid, input)); var r := c.record;
      && after.history.publications == c.history.publications
      && (if MayRepublish(r, stage, attempt, now)
          then after.record == r.(schedule := r.schedule.(retryAt := now + RECOVERY_RETRY_SECONDS))
               && pid in after.processes && after.processes[pid] == c.processes[pid].(pc := Publishing(stage))
          else after.record == r && pid !in after.processes)
  {
    hide ValidRecord, ValidIntent, ValidEnvelope;
  }

  lemma {:induction false} PublishingSends(c: Cell, pid: nat, input: Input, stage: JobStage)
    requires pid in c.processes && c.processes[pid].pc == Publishing(stage) && input.ok
    ensures var after := Act(c, Step(pid, input)); var p := c.processes[pid];
      && after.record == c.record && pid !in after.processes
      && after.history.publications
         == c.history.publications
            + (if input.now < p.envelope.deadline then [Publication(p.envelope, stage, input.now)] else [])
  {
  }

  /**
   * A sweep of queued work in time publishes its own stage exactly when the ticket allows this attempt to go
   * out again and the job still has time; an allowed try moves the next one five seconds on.
   */
  lemma {:induction false} SweepRepublishesExactly(c: Cell, pid: nat, first: Input, second: Input, third: Input)
    requires Reachable(c) && pid !in c.processes && first.ok && second.ok && third.ok
    requires Queued(c.record.state) && 0.0 <= first.now < c.record.envelope.deadline
    ensures var after := SweepOfQueued(c, pid, first, second, third); var r := c.record;
      var allowed := MayRepublish(r, r.stage, r.attempt, first.now);
      && after.history.publications
         == c.history.publications
            + (if allowed && third.now < r.envelope.deadline then [Publication(r.envelope, r.stage, third.now)] else [])
      && after.record
         == (if allowed then r.(schedule := r.schedule.(retryAt := first.now + RECOVERY_RETRY_SECONDS)) else r)
      && pid !in after.processes
  {
    var looked := Act(Act(c, Sweep(pid)), Step(pid, first));
    var asked := Act(looked, Step(pid, second));
    SweepLooks(c, pid, first);
    hide Inv, Sound, Act;
    if first.now < c.record.schedule.notBefore {
      AbsentStep(looked, pid, second);
      AbsentStep(looked, pid, third);
    } else {
      RepublishingAsks(looked, pid, second, c.record.stage, c.record.attempt, first.now);
      if pid in asked.processes { PublishingSends(asked, pid, third, c.record.stage); }
      else { AbsentStep(asked, pid, third); }
    }
  }

  /** The bot's own publication: when the scheduled message is due. */
  function DueAt(r: AdmissionRecord, notBefore: real, now: real): real {
    var scheduled := if r.schedule.registered then r.schedule.notBefore else notBefore;
    if now < scheduled then scheduled else now
  }

  /** The schedule is asked for in time and the first message has not gone out. */
  predicate Asked(r: AdmissionRecord, notBefore: real, now: real) {
    && 0.0 <= notBefore < r.envelope.deadline && now < r.envelope.deadline
    && r.state.Accepted? && !r.schedule.published
  }

  lemma {:induction false} EnqueueRegisters(c: Cell, pid: nat, notBefore: real, now: real)
    requires Sound(c.record) && pid !in c.processes
    ensures var after := Act(c, Enqueue(pid, notBefore, now)); var r := c.record;
      && after.history.publications == c.history.publications
      && (if Asked(r, notBefore, now)
          then after.record == r.(schedule := r.schedule.(
                 registered := true, notBefore := if r.schedule.registered then r.schedule.notBefore else notBefore))
               && pid in after.processes
               && after.processes[pid]
                  == Process("", r.envelope, Media, FirstPublishing(after.record.schedule.notBefore))
          else after.record == r && pid !in after.processes)
  {
    hide ValidRecord, ValidIntent, ValidEnvelope;
  }

  lemma {:induction false} FirstPublishingSends(c: Cell, pid: nat, input: Input, scheduled: real)
    requires pid in c.processes && c.processes[pid].pc == FirstPublishing(scheduled) && input.ok
    ensures var after := Act(c, Step(pid, input)); var envelope := c.processes[pid].envelope;
      var due := if input.now < scheduled then scheduled else input.now;
      && after.record == c.record
      && after.history.publications
         == c.history.publications + (if due < envelope.deadline then [Publication(envelope, Media, due)] else [])
  {
  }

  /**
   * Enqueueing publishes exactly accepted work that nobody published, for the first schedule registered, while
   * that time lies before the deadline; asking again never moves the schedule.
   */
  lemma {:induction false} EnqueuePublishesExactly(c: Cell, pid: nat, notBefore: real, now: real, input: Input)
    requires Reachable(c) && pid !in c.processes && input.ok
    ensures var after := Act(Act(c, Enqueue(pid, notBefore, now)), Step(pid, input)); var r := c.record;
      var asked := Asked(r, notBefore, now);
      && after.history.publications
         == c.history.publications
            + (if asked && DueAt(r, notBefore, input.now) < r.envelope.deadline
               then [Publication(r.envelope, Media, DueAt(r, notBefore, input.now))] else [])
      && after.record
         == (if asked && !r.schedule.registered
             then r.(schedule := r.schedule.(registered := true, notBefore := notBefore)) else r)
  {
    EnqueueRegisters(c, pid, notBefore, now);
    var asked := Act(c, Enqueue(pid, notBefore, now));
    hide Act, Inv, Sound;
    if pid in asked.processes { FirstPublishingSends(asked, pid, input, asked.record.schedule.notBefore); }
    else { AbsentStep(asked, pid, input); }
  }

  /** Handing off publishes browser work exactly when the owner's job still runs and has time. */
  lemma {:induction false} HandoffPublishesExactly(c: Cell, pid: nat, first: Input, second: Input)
    requires Reachable(c) && pid in c.processes && c.processes[pid].pc.HandingOff? && first.ok && second.ok
    ensures var after := Act(Act(c, Step(pid, first)), Step(pid, second)); var r := c.record;
      && after.history.publications
         == c.history.publications
            + (if r.state.Running? && r.stage.Media? && second.now < r.envelope.deadline
               then [Publication(r.envelope, Browser, second.now)] else [])
      && (r.state.Running? && r.stage.Media? ==>
            Enters(r, Handoff(r.token, Browser), Accepted) && after.record == Applied(r, Handoff(r.token, Browser)))
  {
    Here(c, pid);
    hide Inv, Facts, ValidRecord, ValidIntent, ValidEnvelope, FinishReservation;
  }
}
