/**
 * Every job together: one usage ledger and one set of capacity totals shared by all tickets. A job's
 * own step decides what it asks of the ledger; the ledger decides what the job may do next.
 */
module JobWorld {
  import opened Wrappers
  import opened Usage
  import opened Jobs
  import opened AdmissionState
  import opened Budgets
  import opened SettlementProtocol
  import opened UsageLedger
  import opened JobGuarantees

  /** The counters a ticket occupies besides the global ones: its charged subject and where it came in. */
  datatype Lane =
    | SubjectLane(subject: AccountingSubject)
    | GroupIngress(chat: int, sender: int)
    | UserIngress(actor: Option<int>)

  /** Pending tickets and bytes, and pending tickets per lane; a lane at zero is not stored. */
  datatype Totals = Totals(count: int, bytes: int, lanes: map<Lane, int>)

  /** What one admission is allowed to fill up to; resolved anew for each admission. */
  datatype Limits = Limits(
    globalPending: int, totalPayloadBytes: int, payloadBytes: int, subjectPending: int, ingressPending: int)

  datatype World = World(jobs: seq<Cell>, ledger: Ledger, known: set<AccountingSubject>, totals: Totals)

  datatype WorldAction =
    | Admit(job: Cell, limits: Limits)
    | OnJob(index: nat, action: Action)

  const EMPTY_WORLD := World([], EMPTY_LEDGER, {}, Totals(0, 0, map[]))

  function JobId(c: Cell): string {
    c.record.envelope.jobId
  }

  function SubjectOf(c: Cell): Lane {
    SubjectLane(AccountingSubject(c.record.envelope.chargedKind, c.record.envelope.chargedTelegramId))
  }

  function IngressOf(c: Cell): Lane {
    var envelope := c.record.envelope;
    if envelope.target.kind.Group?
    then GroupIngress(envelope.target.telegramId, if envelope.actorId.Some? then envelope.actorId.value else 0)
    else UserIngress(envelope.actorId)
  }

  predicate InLane(c: Cell, lane: Lane) {
    lane == SubjectOf(c) || lane == IngressOf(c)
  }

  function Pending(lanes: map<Lane, int>, lane: Lane): int {
    if lane in lanes then lanes[lane] else 0
  }

  function Enter(lanes: map<Lane, int>, c: Cell): map<Lane, int> {
    lanes[SubjectOf(c) := Pending(lanes, SubjectOf(c)) + 1][IngressOf(c) := Pending(lanes, IngressOf(c)) + 1]
  }

  function LeaveLane(lanes: map<Lane, int>, lane: Lane): map<Lane, int> {
    if Pending(lanes, lane) > 1 then lanes[lane := lanes[lane] - 1] else lanes - {lane}
  }

  function Admitted(totals: Totals, job: Cell): Totals {
    Totals(totals.count + 1, totals.bytes + job.record.byteSize, Enter(totals.lanes, job))
  }

  function Given(totals: Totals, job: Cell): Totals {
    Totals(totals.count - 1, totals.bytes - job.record.byteSize,
           LeaveLane(LeaveLane(totals.lanes, SubjectOf(job)), IngressOf(job)))
  }

  predicate IsFull(totals: Totals, job: Cell, limits: Limits) {
    totals.count >= limits.globalPending
    || totals.bytes + job.record.byteSize > limits.totalPayloadBytes
    || job.record.byteSize > limits.payloadBytes
    || Pending(totals.lanes, SubjectOf(job)) >= limits.subjectPending
    || Pending(totals.lanes, IngressOf(job)) >= limits.ingressPending
  }

  predicate NewIdentity(jobs: seq<Cell>, id: string) {
    forall i :: 0 <= i < |jobs| ==> JobId(jobs[i]) != id
  }

  /** The process whose next step is `apply_batch`, with the intent it carries. */
  function RecordingIntent(c: Cell, a: Action): Option<SettlementIntent> {
    if a.Step? && a.pid in c.processes && a.input.ok && c.processes[a.pid].pc.Recording?
       && c.processes[a.pid].pc.intent.event.Some? && ValidEvent(c.processes[a.pid].pc.intent.event.value)
    then Some(c.processes[a.pid].pc.intent)
    else None
  }

  /** `apply_batch` against the shared ledger, and what the caller does with its answer. */
  function RecordShared(
    ledger: Ledger, known: set<AccountingSubject>, c: Cell, pid: nat, intent: SettlementIntent): (Ledger, Cell)
    requires pid in c.processes && intent.event.Some? && ValidEvent(intent.event.value)
  {
    var event := intent.event.value;
    match ApplyBatch(ledger, known, [event])
    case Failure(_) => (ledger, End(c, pid))
    case Success(updated) =>
      var written := event.eventId !in ledger.receipts;
      var after :=
        if written then
          c.(receipt := intent.event,
             history := c.history.(receiptsWritten := c.history.receiptsWritten + 1))
        else c;
      var next := if intent.actual != [] then Crediting(intent) else Releasing(intent);
      (updated, Resume(after, pid, c.processes[pid], next))
  }

  /** Capacity given back by one action on a job. */
  function Returned(c: Cell, after: Cell): int {
    after.history.releases - c.history.releases
  }

  function WorldAct(w: World, a: WorldAction): World {
    match a
    case Admit(job, limits) =>
      if !Initial(job) || !NewIdentity(w.jobs, JobId(job)) || IsFull(w.totals, job, limits) then w
      else
        var envelope := job.record.envelope;
        w.(jobs := w.jobs + [job],
           known := w.known + {AccountingSubject(envelope.chargedKind, envelope.chargedTelegramId)},
           totals := Admitted(w.totals, job))
    case OnJob(index, action) =>
      if index >= |w.jobs| then w
      else
        var c := w.jobs[index];
        match RecordingIntent(c, action)
        case Some(intent) =>
          var (ledger, after) := RecordShared(w.ledger, w.known, c, action.pid, intent);
          w.(jobs := w.jobs[index := after], ledger := ledger)
        case None =>
          var after := Act(c, action);
          w.(jobs := w.jobs[index := after],
             totals := if Returned(c, after) > 0 then Given(w.totals, c) else w.totals)
  }

  function RunWorld(w: World, actions: seq<WorldAction>): World
    decreases |actions|
  {
    if actions == [] then w else RunWorld(WorldAct(w, actions[0]), actions[1..])
  }

  // ----- What the shared counters should hold -----

  function ReceiptTotal(c: Cell, key: AggregateKey): int {
    if c.receipt.Some? then ChargesTotal(c.receipt.value, c.receipt.value.charges, key) else 0
  }

  /** Usage of a key over all jobs' receipts. */
  function ChargedTotal(jobs: seq<Cell>, key: AggregateKey): int {
    if jobs == [] then 0
    else ChargedTotal(jobs[..|jobs| - 1], key) + ReceiptTotal(jobs[|jobs| - 1], key)
  }

  predicate Live(c: Cell) {
    !c.record.state.Terminal?
  }

  function LiveCount(jobs: seq<Cell>): int {
    if jobs == [] then 0
    else LiveCount(jobs[..|jobs| - 1]) + if Live(jobs[|jobs| - 1]) then 1 else 0
  }

  function LiveBytes(jobs: seq<Cell>): int {
    if jobs == [] then 0
    else LiveBytes(jobs[..|jobs| - 1]) + if Live(jobs[|jobs| - 1]) then jobs[|jobs| - 1].record.byteSize else 0
  }

  /** Unfinished jobs that occupy a lane. */
  function LiveIn(jobs: seq<Cell>, lane: Lane): int {
    if jobs == [] then 0
    else
      var last := jobs[|jobs| - 1];
      LiveIn(jobs[..|jobs| - 1], lane) + if Live(last) && InLane(last, lane) then 1 else 0
  }

  ghost predicate TotalsAgree(totals: Totals, jobs: seq<Cell>) {
    && totals.count == LiveCount(jobs) && totals.bytes == LiveBytes(jobs)
    && forall lane :: Pending(totals.lanes, lane) == LiveIn(jobs, lane)
  }

  predicate DistinctJobs(jobs: seq<Cell>) {
    forall i, j :: 0 <= i < j < |jobs| ==> JobId(jobs[i]) != JobId(jobs[j])
  }

  predicate AllReachable(jobs: seq<Cell>) {
    forall i :: 0 <= i < |jobs| ==> Reachable(jobs[i])
  }

  ghost predicate RowsAgree(rows: map<AggregateKey, int>, jobs: seq<Cell>) {
    forall key :: Aligned(key) ==> Row(rows, key) == ChargedTotal(jobs, key)
  }

  /** The ledger's receipts are the jobs' receipts, one for one. */
  ghost predicate ReceiptsAgree(receipts: map<string, Fingerprint>, jobs: seq<Cell>) {
    && (forall i :: 0 <= i < |jobs| ==>
          (jobs[i].receipt.Some? <==> JobId(jobs[i]) in receipts))
    && (forall i :: 0 <= i < |jobs| && jobs[i].receipt.Some? ==>
          receipts[JobId(jobs[i])] == FingerprintOf(jobs[i].receipt.value))
    && (forall id :: id in receipts ==> exists i :: 0 <= i < |jobs| && JobId(jobs[i]) == id)
  }

  ghost predicate WorldInv(w: World) {
    && AllReachable(w.jobs) && DistinctJobs(w.jobs)
    && RowsAgree(w.ledger.rows, w.jobs) && ReceiptsAgree(w.ledger.receipts, w.jobs)
    && TotalsAgree(w.totals, w.jobs)
  }

  // ----- Replacing one job in the sums -----

  lemma {:induction false} ReplaceInSums(jobs: seq<Cell>, i: nat, after: Cell, key: AggregateKey)
    requires i < |jobs|
    ensures ChargedTotal(jobs[i := after], key)
      == ChargedTotal(jobs, key) - ReceiptTotal(jobs[i], key) + ReceiptTotal(after, key)
    decreases |jobs|
  {
    var last := |jobs| - 1;
    var updated := jobs[i := after];
    if i == last {
      assert updated[..last] == jobs[..last];
    } else {
      ReplaceInSums(jobs[..last], i, after, key);
      assert updated[..last] == jobs[..last][i := after];
    }
  }

  lemma {:induction false} ReplaceInLive(jobs: seq<Cell>, i: nat, after: Cell)
    requires i < |jobs| && after.record.byteSize == jobs[i].record.byteSize
    ensures var freed := (if Live(jobs[i]) then 1 else 0) - (if Live(after) then 1 else 0);
      && LiveCount(jobs[i := after]) == LiveCount(jobs) - freed
      && LiveBytes(jobs[i := after]) == LiveBytes(jobs) - freed * jobs[i].record.byteSize
    decreases |jobs|
  {
    var last := |jobs| - 1;
    var updated := jobs[i := after];
    if i == last {
      assert updated[..last] == jobs[..last];
    } else {
      ReplaceInLive(jobs[..last], i, after);
      assert updated[..last] == jobs[..last][i := after];
    }
  }

  lemma {:induction false} ReplaceInLane(jobs: seq<Cell>, i: nat, after: Cell, lane: Lane)
    requires i < |jobs| && after.record.envelope == jobs[i].record.envelope
    ensures LiveIn(jobs[i := after], lane) ==
      LiveIn(jobs, lane)
      - if InLane(jobs[i], lane) then (if Live(jobs[i]) then 1 else 0) - (if Live(after) then 1 else 0) else 0
    decreases |jobs|
  {
    hide Live, InLane;
    SameLanes(jobs[i], after, lane);
    var last := |jobs| - 1;
    var updated := jobs[i := after];
    if i == last {
      assert updated[..last] == jobs[..last];
    } else {
      ReplaceInLane(jobs[..last], i, after, lane);
      assert updated[..last] == jobs[..last][i := after];
    }
  }

  lemma SameLanes(c: Cell, after: Cell, lane: Lane)
    requires after.record.envelope == c.record.envelope
    ensures InLane(c, lane) <==> InLane(after, lane)
  {
  }

  lemma {:induction false} LiveInPositive(jobs: seq<Cell>, lane: Lane)
    ensures LiveIn(jobs, lane) >= 0
    ensures forall i :: 0 <= i < |jobs| && Live(jobs[i]) && InLane(jobs[i], lane) ==> LiveIn(jobs, lane) >= 1
  {
    if jobs != [] { LiveInPositive(jobs[..|jobs| - 1], lane); }
  }

  /** A job that goes on occupies what it did; one that ends gives everything back. */
  lemma {:induction false} TotalsFollow(totals: Totals, jobs: seq<Cell>, i: nat, after: Cell)
    requires TotalsAgree(totals, jobs) && i < |jobs|
    requires after.record.envelope == jobs[i].record.envelope && after.record.byteSize == jobs[i].record.byteSize
    requires Live(after) ==> Live(jobs[i])
    ensures TotalsAgree(if Live(jobs[i]) && !Live(after) then Given(totals, jobs[i]) else totals, jobs[i := after])
  {
    hide Live, InLane, LiveIn, LiveCount, LiveBytes;
    ReplaceInLive(jobs, i, after);
    var next := if Live(jobs[i]) && !Live(after) then Given(totals, jobs[i]) else totals;
    forall lane ensures Pending(next.lanes, lane) == LiveIn(jobs[i := after], lane) {
      ReplaceInLane(jobs, i, after, lane);
      LanesOf(jobs[i], lane);
      LiveInPositive(jobs, SubjectOf(jobs[i]));
      LiveInPositive(jobs, IngressOf(jobs[i]));
      LanesOf(jobs[i], SubjectOf(jobs[i]));
      LanesOf(jobs[i], IngressOf(jobs[i]));
    }
  }

  lemma LanesOf(c: Cell, lane: Lane)
    ensures InLane(c, lane) <==> lane == SubjectOf(c) || lane == IngressOf(c)
    ensures SubjectOf(c) != IngressOf(c)
  {
  }

  lemma {:induction false} TotalsGrow(totals: Totals, jobs: seq<Cell>, job: Cell)
    requires TotalsAgree(totals, jobs) && Live(job)
    ensures TotalsAgree(Admitted(totals, job), jobs + [job])
  {
    hide Live, InLane;
    assert (jobs + [job])[..|jobs|] == jobs;
    forall lane ensures Pending(Admitted(totals, job).lanes, lane) == LiveIn(jobs + [job], lane) {
      LanesOf(job, lane);
    }
  }

  // ----- Steps -----

  /** Everything a job action leaves alone: identity, size, and a receipt once there. */
  lemma ActKeepsJob(c: Cell, a: Action)
    requires Reachable(c) && RecordingIntent(c, a).None?
    ensures Reachable(Act(c, a))
    ensures Act(c, a).record.envelope == c.record.envelope && Act(c, a).record.byteSize == c.record.byteSize
    ensures Act(c, a).receipt == c.receipt
    ensures Returned(c, Act(c, a)) == (if Live(c) then 1 else 0) - (if Live(Act(c, a)) then 1 else 0)
    ensures Live(Act(c, a)) ==> Live(c)
  {
    hide Inv, Sound, Act;
    if !Live(c) { NeverUnfinished(c, a); }
    RunOne(c, a);
    RunsStayReachable(c, [a]);
    ReleasesHere(c);
    ReleasesHere(Act(c, a));
    OnlyRecordingWritesReceipt(c, a);
  }

  lemma ReleasesHere(c: Cell)
    requires Inv(c)
    ensures c.history.releases == if Live(c) then 0 else 1
  {
  }

  lemma RecordingHere(c: Cell, pid: nat)
    requires Reachable(c) && pid in c.processes && c.processes[pid].pc.Recording?
    ensures var intent := c.processes[pid].pc.intent;
      && c.record.settlement == Some(intent) && intent.event.Some?
      && ValidEvent(intent.event.value)
      && intent.event.value.eventId == JobId(c)
      && (c.receipt.Some? ==> c.receipt == intent.event)
  {
  }

  lemma OnlyRecordingWritesReceipt(c: Cell, a: Action)
    requires Reachable(c) && RecordingIntent(c, a).None?
    ensures Act(c, a).receipt == c.receipt
  {
    hide Reachable, Commit, Succeeded, RaisedError, Transact, Stored, Reserve, FinishReservation, ValidIntent;
    hide ValidEvent;
    match a {
      case Step(pid, input) =>
        if pid in c.processes {
          if c.processes[pid].pc.Recording? { RecordingHere(c, pid); }
          CommitKeepsReceipt(c, StepTransition(c.processes[pid], input));
        }
      case Receive(_, envelope, stage, now, token) => CommitKeepsReceipt(c, Claim(stage, now, token, Some(envelope)));
      case Outside(t) => CommitKeepsReceipt(c, t);
      case Enqueue(_, notBefore, _) => CommitKeepsReceipt(c, Register(c.record.envelope, notBefore));
      case _ =>
    }
  }

  lemma CommitKeepsReceipt(c: Cell, t: Transition)
    ensures Commit(c, t).receipt == c.receipt
  {
  }

  /**
   * The shared ledger gives each job exactly the answer its own step assumes: written once, replayed
   * afterwards, never refused as a conflict. A refusal for another reason is a call that raised.
   */
  lemma SharedLedgerRefinesRecording(w: World, index: nat, pid: nat, input: Input)
    requires WorldInv(w) && index < |w.jobs|
    requires RecordingIntent(w.jobs[index], Step(pid, input)).Some?
    ensures var c := w.jobs[index]; var intent := c.processes[pid].pc.intent;
      var applied := ApplyBatch(w.ledger, w.known, [intent.event.value]);
      && applied != Failure(ReceiptConflict)
      && RecordShared(w.ledger, w.known, c, pid, intent).1
         == Act(c, Step(pid, if applied.Success? then input else input.(ok := false)))
  {
    hide Reachable, RowsAgree, ValidEvent, FingerprintOf;
    var c := w.jobs[index];
    assert Reachable(c);
    RecordingHere(c, pid);
    ApplyOne(w.ledger, w.known, c.processes[pid].pc.intent.event.value);
  }

  /** One job's receipt appears while the ledger takes its charges: the sums stay in step. */
  lemma RowsStayInStep(
    rows: map<AggregateKey, int>, jobs: seq<Cell>, index: nat, after: Cell, event: UsageEvent)
    requires RowsAgree(rows, jobs) && index < |jobs| && ValidEvent(event)
    requires jobs[index].receipt.None? && after.receipt == Some(event)
    requires AddCharges(rows, event, event.charges).Success?
    ensures RowsAgree(AddCharges(rows, event, event.charges).value, jobs[index := after])
  {
    var updated := AddCharges(rows, event, event.charges).value;
    forall key | Aligned(key) ensures Row(updated, key) == ChargedTotal(jobs[index := after], key) {
      ReplaceInSums(jobs, index, after, key);
      AddChargesAdds(rows, event, event.charges, key);
    }
  }

  lemma RowsStayPut(rows: map<AggregateKey, int>, jobs: seq<Cell>, index: nat, after: Cell)
    requires RowsAgree(rows, jobs) && index < |jobs| && after.receipt == jobs[index].receipt
    ensures RowsAgree(rows, jobs[index := after])
  {
    forall key | Aligned(key) ensures Row(rows, key) == ChargedTotal(jobs[index := after], key) {
      ReplaceInSums(jobs, index, after, key);
    }
  }

  lemma ReceiptsStayInStep(receipts: map<string, Fingerprint>, jobs: seq<Cell>, index: nat, after: Cell)
    requires ReceiptsAgree(receipts, jobs) && DistinctJobs(jobs) && index < |jobs|
    requires JobId(after) == JobId(jobs[index]) && after.receipt.Some?
    ensures ReceiptsAgree(receipts[JobId(after) := FingerprintOf(after.receipt.value)], jobs[index := after])
  {
    hide FingerprintOf;
    var longer := receipts[JobId(after) := FingerprintOf(after.receipt.value)];
    var updated := jobs[index := after];
    forall i | 0 <= i < |updated| ensures JobId(updated[i]) == JobId(jobs[i]) {}
    forall id | id in longer ensures exists i :: 0 <= i < |updated| && JobId(updated[i]) == id {
      if id == JobId(after) { assert JobId(updated[index]) == id; }
      else {
        var i :| 0 <= i < |jobs| && JobId(jobs[i]) == id;
        assert JobId(updated[i]) == id;
      }
    }
  }

  lemma ReceiptsStayPut(receipts: map<string, Fingerprint>, jobs: seq<Cell>, index: nat, after: Cell)
    requires ReceiptsAgree(receipts, jobs) && index < |jobs|
    requires JobId(after) == JobId(jobs[index]) && after.receipt == jobs[index].receipt
    ensures ReceiptsAgree(receipts, jobs[index := after])
  {
    hide FingerprintOf;
    var updated := jobs[index := after];
    forall i | 0 <= i < |updated|
      ensures JobId(updated[i]) == JobId(jobs[i]) && updated[i].receipt == jobs[i].receipt
    {
    }
    forall id | id in receipts ensures exists i :: 0 <= i < |updated| && JobId(updated[i]) == id {
      var i :| 0 <= i < |jobs| && JobId(jobs[i]) == id;
      assert JobId(updated[i]) == id;
    }
  }

  lemma RecordingKeepsWorld(w: World, index: nat, pid: nat, input: Input)
    requires WorldInv(w) && index < |w.jobs|
    requires RecordingIntent(w.jobs[index], Step(pid, input)).Some?
    ensures var c := w.jobs[index]; var intent := c.processes[pid].pc.intent;
      WorldInv(w.(
        jobs := w.jobs[index := RecordShared(w.ledger, w.known, c, pid, intent).1],
        ledger := RecordShared(w.ledger, w.known, c, pid, intent).0))
  {
    hide Reachable, ValidEvent, FingerprintOf, Act, RecordingIntent, RowsAgree, ReceiptsAgree, ApplyBatch, TotalsAgree;
    var c := w.jobs[index];
    assert Reachable(c);
    RecordingIntentIs(c, pid, input);
    RecordingHere(c, pid);
    var intent := c.processes[pid].pc.intent;
    var event := intent.event.value;
    var ledger := RecordShared(w.ledger, w.known, c, pid, intent).0;
    var after := RecordShared(w.ledger, w.known, c, pid, intent).1;
    SharedLedgerRefinesRecording(w, index, pid, input);
    ActStaysReachable(c, Step(pid, input));
    ActStaysReachable(c, Step(pid, input.(ok := false)));
    assert Reachable(after);
    TotalsFollow(w.totals, w.jobs, index, after);
    IdentitiesKept(w.jobs, index, after);
    ApplyOne(w.ledger, w.known, event);
    ReceiptHere(w, index);
    if after.receipt == c.receipt {
      assert ledger == w.ledger;
      RowsStayPut(w.ledger.rows, w.jobs, index, after);
      ReceiptsStayPut(w.ledger.receipts, w.jobs, index, after);
    } else {
      RowsStayInStep(w.ledger.rows, w.jobs, index, after, event);
      ReceiptsStayInStep(w.ledger.receipts, w.jobs, index, after);
    }
  }

  lemma ReceiptHere(w: World, index: nat)
    requires WorldInv(w) && index < |w.jobs|
    ensures w.jobs[index].receipt.Some? <==> JobId(w.jobs[index]) in w.ledger.receipts
    ensures w.jobs[index].receipt.Some? ==>
      w.ledger.receipts[JobId(w.jobs[index])] == FingerprintOf(w.jobs[index].receipt.value)
  {
  }

  lemma RecordingIntentIs(c: Cell, pid: nat, input: Input)
    requires RecordingIntent(c, Step(pid, input)).Some?
    ensures pid in c.processes && c.processes[pid].pc.Recording? && input.ok
    ensures c.processes[pid].pc.intent.event.Some? && ValidEvent(c.processes[pid].pc.intent.event.value)
  {
  }

  lemma ActStaysReachable(c: Cell, a: Action)
    requires Reachable(c)
    ensures Reachable(Act(c, a))
  {
    hide Inv, Sound, Act;
    RunOne(c, a);
    RunsStayReachable(c, [a]);
  }

  lemma IdentitiesKept(jobs: seq<Cell>, index: nat, after: Cell)
    requires index < |jobs| && JobId(after) == JobId(jobs[index])
    requires DistinctJobs(jobs)
    ensures DistinctJobs(jobs[index := after])
  {
  }

  lemma JobActionKeepsWorld(w: World, index: nat, a: Action)
    requires WorldInv(w) && index < |w.jobs| && RecordingIntent(w.jobs[index], a).None?
    ensures WorldInv(WorldAct(w, OnJob(index, a)))
  {
    hide Reachable, RowsAgree, ReceiptsAgree, Act, RecordingIntent, Live, TotalsAgree;
    var c := w.jobs[index];
    assert Reachable(c);
    var after := Act(c, a);
    ActKeepsJob(c, a);
    TotalsFollow(w.totals, w.jobs, index, after);
    IdentitiesKept(w.jobs, index, after);
    RowsStayPut(w.ledger.rows, w.jobs, index, after);
    ReceiptsStayPut(w.ledger.receipts, w.jobs, index, after);
  }

  lemma NewJobKeepsReceipts(receipts: map<string, Fingerprint>, jobs: seq<Cell>, job: Cell)
    requires ReceiptsAgree(receipts, jobs) && job.receipt.None? && NewIdentity(jobs, JobId(job))
    ensures ReceiptsAgree(receipts, jobs + [job])
  {
    var longer := jobs + [job];
    forall id | id in receipts ensures exists i :: 0 <= i < |longer| && JobId(longer[i]) == id {
      var i :| 0 <= i < |jobs| && JobId(jobs[i]) == id;
      assert JobId(longer[i]) == id;
    }
  }

  lemma AdmitKeepsWorld(w: World, job: Cell, limits: Limits)
    requires WorldInv(w)
    ensures WorldInv(WorldAct(w, Admit(job, limits)))
  {
    hide Reachable, Initial, ReceiptsAgree, TotalsAgree, IsFull;
    var after := WorldAct(w, Admit(job, limits));
    if after != w {
      JobsStartReachable(job);
      StartingJob(job);
      TotalsGrow(w.totals, w.jobs, job);
      NewJobKeepsReceipts(w.ledger.receipts, w.jobs, job);
      assert after.jobs[..|after.jobs| - 1] == w.jobs;
    }
  }

  lemma StartingJob(job: Cell)
    requires Initial(job)
    ensures job.receipt.None? && Live(job)
  {
  }

  lemma WorldActKeeps(w: World, a: WorldAction)
    requires WorldInv(w)
    ensures WorldInv(WorldAct(w, a))
  {
    hide WorldInv, RecordShared, Act, Initial;
    match a {
      case Admit(job, limits) => AdmitKeepsWorld(w, job, limits);
      case OnJob(index, action) =>
        if index < |w.jobs| {
          if RecordingIntent(w.jobs[index], action).Some? {
            RecordingKeepsWorld(w, index, action.pid, action.input);
          } else {
            JobActionKeepsWorld(w, index, action);
          }
        }
    }
  }

  lemma {:induction false} RunWorldKeeps(w: World, actions: seq<WorldAction>)
    requires WorldInv(w)
    ensures WorldInv(RunWorld(w, actions))
    decreases |actions|
  {
    hide WorldInv, WorldAct;
    if actions != [] {
      WorldActKeeps(w, actions[0]);
      RunWorldKeeps(WorldAct(w, actions[0]), actions[1..]);
    }
  }

  lemma EmptyWorldHolds()
    ensures WorldInv(EMPTY_WORLD)
  {
  }

  // ----- What holds of every run -----

  /** Usage of a key over the jobs whose delivery was confirmed. */
  function ConfirmedTotal(jobs: seq<Cell>, key: AggregateKey): int {
    if jobs == [] then 0
    else
      var last := jobs[|jobs| - 1];
      ConfirmedTotal(jobs[..|jobs| - 1], key) + if last.history.confirmations == 1 then ReceiptTotal(last, key) else 0
  }

  lemma {:induction false} ReceiptsAreConfirmed(jobs: seq<Cell>, key: AggregateKey)
    requires AllReachable(jobs)
    ensures ConfirmedTotal(jobs, key) == ChargedTotal(jobs, key)
    decreases |jobs|
  {
    hide Reachable;
    if jobs != [] {
      var last := jobs[|jobs| - 1];
      assert Reachable(last);
      if last.receipt.Some? { ReceiptFacts(last); }
      ReceiptsAreConfirmed(jobs[..|jobs| - 1], key);
    }
  }

  /**
   * After any run, every aggregate counter is exactly what the confirmed deliveries were charged: no
   * job counts twice, and no job without a confirmed delivery counts at all.
   */
  lemma CountersAreConfirmedDeliveries(actions: seq<WorldAction>, key: AggregateKey)
    requires Aligned(key)
    ensures var w := RunWorld(EMPTY_WORLD, actions);
      Row(w.ledger.rows, key) == ConfirmedTotal(w.jobs, key)
  {
    hide AllReachable;
    EmptyWorldHolds();
    RunWorldKeeps(EMPTY_WORLD, actions);
    ReceiptsAreConfirmed(RunWorld(EMPTY_WORLD, actions).jobs, key);
  }

  /** Every receipt in the ledger belongs to exactly one job, which was delivered and confirmed. */
  lemma ReceiptsInjectIntoDeliveries(actions: seq<WorldAction>, id: string)
    ensures var w := RunWorld(EMPTY_WORLD, actions);
      id in w.ledger.receipts ==>
        exists i :: 0 <= i < |w.jobs| && JobId(w.jobs[i]) == id
          && w.jobs[i].history.deliveryStarts == 1 && w.jobs[i].history.confirmations == 1
          && forall j :: 0 <= j < |w.jobs| && JobId(w.jobs[j]) == id ==> j == i
  {
    hide Reachable;
    EmptyWorldHolds();
    RunWorldKeeps(EMPTY_WORLD, actions);
    var w := RunWorld(EMPTY_WORLD, actions);
    if id in w.ledger.receipts {
      var i :| 0 <= i < |w.jobs| && JobId(w.jobs[i]) == id;
      assert Reachable(w.jobs[i]);
      ReceiptHere(w, i);
      ReceiptFacts(w.jobs[i]);
    }
  }

  /**
   * The pending counters, global and per lane, always equal the unfinished jobs: capacity neither leaks
   * nor is given back twice.
   */
  lemma CapacityIsConserved(actions: seq<WorldAction>, lane: Lane)
    ensures var w := RunWorld(EMPTY_WORLD, actions);
      && w.totals.count == LiveCount(w.jobs) && w.totals.bytes == LiveBytes(w.jobs)
      && Pending(w.totals.lanes, lane) == LiveIn(w.jobs, lane)
  {
    hide AllReachable, RowsAgree, ReceiptsAgree, DistinctJobs;
    EmptyWorldHolds();
    RunWorldKeeps(EMPTY_WORLD, actions);
  }

  /** Every admission is made under limits of at most these. */
  predicate AdmittedUnder(actions: seq<WorldAction>, caps: Limits) {
    forall i :: 0 <= i < |actions| && actions[i].Admit? ==> AtMost(actions[i].limits, caps)
  }

  predicate AtMost(limits: Limits, caps: Limits) {
    && limits.globalPending <= caps.globalPending && limits.totalPayloadBytes <= caps.totalPayloadBytes
    && limits.subjectPending <= caps.subjectPending && limits.ingressPending <= caps.ingressPending
  }

  function LaneCap(lane: Lane, caps: Limits): int {
    if lane.SubjectLane? then caps.subjectPending else caps.ingressPending
  }

  ghost predicate WithinCaps(totals: Totals, caps: Limits) {
    && totals.count <= caps.globalPending && totals.bytes <= caps.totalPayloadBytes
    && forall lane :: lane in totals.lanes ==> totals.lanes[lane] <= LaneCap(lane, caps)
  }

  lemma AdmittedWithinCaps(totals: Totals, job: Cell, limits: Limits, caps: Limits)
    requires WithinCaps(totals, caps) && AtMost(limits, caps) && !IsFull(totals, job, limits)
    ensures WithinCaps(Admitted(totals, job), caps)
  {
    LanesOf(job, SubjectOf(job));
  }

  lemma GivenWithinCaps(totals: Totals, job: Cell, caps: Limits)
    requires WithinCaps(totals, caps) && job.record.byteSize > 0
    ensures WithinCaps(Given(totals, job), caps)
  {
  }

  lemma WorldActKeepsWithinCaps(w: World, a: WorldAction, caps: Limits)
    requires WorldInv(w) && WithinCaps(w.totals, caps) && (a.Admit? ==> AtMost(a.limits, caps))
    ensures WithinCaps(WorldAct(w, a).totals, caps)
  {
    hide Reachable, RowsAgree, ReceiptsAgree, TotalsAgree, Act, RecordingIntent, Initial, RecordShared, WithinCaps;
    hide IsFull, Admitted, Given, DistinctJobs;
    match a {
      case Admit(job, limits) =>
        if !IsFull(w.totals, job, limits) { AdmittedWithinCaps(w.totals, job, limits, caps); }
      case OnJob(index, action) =>
        if index < |w.jobs| {
          assert Reachable(w.jobs[index]);
          SizeHere(w.jobs[index]);
          GivenWithinCaps(w.totals, w.jobs[index], caps);
        }
    }
  }

  lemma SizeHere(c: Cell)
    requires Reachable(c)
    ensures c.record.byteSize > 0 && Shape(c.record)
  {
  }

  lemma NeverUnfinished(c: Cell, a: Action)
    requires Reachable(c) && !Live(c)
    ensures !Live(Act(c, a))
  {
    hide Inv, Sound, Act;
    RunOne(c, a);
    RunsStayReachable(c, [a]);
  }

  /**
   * Whatever is admitted, replayed or released, unfinished work never exceeds the largest limits it was
   * admitted under: in number, in bytes, per charged subject and per ingress.
   */
  lemma {:induction false} LimitsAreNeverExceeded(w: World, actions: seq<WorldAction>, caps: Limits)
    requires WorldInv(w) && WithinCaps(w.totals, caps) && AdmittedUnder(actions, caps)
    requires caps.subjectPending >= 0 && caps.ingressPending >= 0
    ensures var after := RunWorld(w, actions);
      && LiveCount(after.jobs) <= caps.globalPending && LiveBytes(after.jobs) <= caps.totalPayloadBytes
      && forall lane :: LiveIn(after.jobs, lane) <= LaneCap(lane, caps)
    decreases |actions|
  {
    hide WorldAct, AllReachable, RowsAgree, ReceiptsAgree, AtMost;
    if actions == [] {
      forall lane ensures LiveIn(w.jobs, lane) <= LaneCap(lane, caps) {
        assert Pending(w.totals.lanes, lane) == LiveIn(w.jobs, lane);
      }
    } else {
      WorldActKeeps(w, actions[0]);
      WorldActKeepsWithinCaps(w, actions[0], caps);
      LimitsAreNeverExceeded(WorldAct(w, actions[0]), actions[1..], caps);
    }
  }

  // ----- Admission -----

  /** One more job of this size fits every limit. */
  predicate Fits(totals: Totals, job: Cell, limits: Limits) {
    && totals.count + 1 <= limits.globalPending
    && totals.bytes + job.record.byteSize <= limits.totalPayloadBytes
    && job.record.byteSize <= limits.payloadBytes
    && Pending(totals.lanes, SubjectOf(job)) + 1 <= limits.subjectPending
    && Pending(totals.lanes, IngressOf(job)) + 1 <= limits.ingressPending
  }

  /** A fresh job of a new identity is admitted exactly when it fits every limit; then it counts in each of them. */
  lemma {:induction false} AdmitsExactly(w: World, job: Cell, limits: Limits)
    requires Initial(job)
    ensures var after := WorldAct(w, Admit(job, limits));
      if (forall i :: 0 <= i < |w.jobs| ==> JobId(w.jobs[i]) != JobId(job)) && Fits(w.totals, job, limits)
      then
        && after.jobs == w.jobs + [job] && after.ledger == w.ledger
        && AccountingSubject(job.record.envelope.chargedKind, job.record.envelope.chargedTelegramId) in after.known
        && w.known <= after.known
        && after.totals.count == w.totals.count + 1
        && after.totals.bytes == w.totals.bytes + job.record.byteSize
        && (forall lane :: Pending(after.totals.lanes, lane)
              == Pending(w.totals.lanes, lane) + if InLane(job, lane) then 1 else 0)
      else after == w
  {
    hide Initial;
  }

  /** Which lanes a job counts in: who is charged, and where it came in. */
  lemma LanesExactly(job: Cell, lane: Lane)
    ensures var envelope := job.record.envelope;
      InLane(job, lane) <==>
        || lane == SubjectLane(AccountingSubject(envelope.chargedKind, envelope.chargedTelegramId))
        || (envelope.target.kind.User? && lane == UserIngress(envelope.actorId))
        || (envelope.target.kind.Group?
            && lane == GroupIngress(
                 envelope.target.telegramId, if envelope.actorId.Some? then envelope.actorId.value else 0))
  {
  }
}
