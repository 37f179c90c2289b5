/**
 * Every job beside one set of shared quota counters: each reservation, settlement and reclaim of any job is
 * answered by the counters and moves them, so what the counters promise holds of the jobs themselves.
 */
module QuotaWorld {
  import opened Wrappers
  import opened Usage
  import opened Jobs
  import opened AdmissionState
  import opened Budgets
  import opened SettlementProtocol
  import opened JobGuarantees
  import opened QuotaStranding
  import opened JobWorld
  import Q = QuotaCounters

  const ONE_ESTIMATE: map<UsageUnit, int> := map[Requests := 1]

  datatype Shared = Shared(jobs: seq<Cell>, counters: Q.Counters)

  /**
   * A reserving step brings a `share`, the job's policies and limits as resolved at that moment, and
   * `trusted`, the windows known from earlier.
   */
  datatype SharedAction =
    | Arrive(job: Cell)
    | OnJob(index: nat, action: Action, share: Option<Q.Share>, trusted: set<string>)

  const NO_JOBS := Shared([], Q.NO_COUNTERS)

  /** The place of an identity's share. */
  function ShareOf(shares: seq<Q.Share>, id: string): (place: Option<nat>)
    ensures place.Some? ==> place.value < |shares| && shares[place.value].id == id
    ensures place.None? <==> !Q.KnownId(shares, id)
  {
    if shares == [] then None
    else if shares[|shares| - 1].id == id then Some(|shares| - 1)
    else
      var place := ShareOf(shares[..|shares| - 1], id);
      assert place.None? ==> forall i :: 0 <= i < |shares| - 1 ==> shares[..|shares| - 1][i] == shares[i];
      place
  }

  /** The request is this job's: one request in every window it lists. */
  predicate RequestOf(c: Cell, share: Q.Share) {
    Q.ValidShare(share) && share.id == JobId(c) && share.estimates == ONE_ESTIMATE
  }

  /** The budget call this action makes, if it makes one. */
  datatype BudgetCall = ReserveCall | SettleCall(actual: seq<UnitAmount>) | ReclaimCall | NoCall

  function CallOf(c: Cell, a: Action): BudgetCall {
    match a
    case Step(pid, input) =>
      if pid !in c.processes || !input.ok then NoCall
      else if c.processes[pid].pc.Reserving? then ReserveCall
      else if c.processes[pid].pc.Crediting? then SettleCall(c.processes[pid].pc.intent.actual)
      else NoCall
    case ExpireStaleReservation(_) => ReclaimCall
    case _ => NoCall
  }

  /** What the counters answer a reservation. */
  function AnswerOf(s: Q.Counters, share: Q.Share, now: real, trusted: set<string>, replay: QuotaAnswer): QuotaAnswer
    requires Q.ValidShare(share)
  {
    var place := ShareOf(s.shares, share.id);
    if place.Some? then
      if replay.BindingChanged? then BindingChanged
      else if Q.Verified(s, s.shares[place.value]) then Granted
      else CountersUnavailable
    else
      match Q.Judge(s, share, now, trusted)
      case Admitted => Granted
      case Waiting(retry) => Denied(retry)
      case NeverFits => TooLarge
      case Unavailable => CountersUnavailable
  }

  /** A reservation is tried between the epoch and the job's deadline only. */
  function TryReserving(
    s: Q.Counters, share: Q.Share, now: real, deadline: real, trusted: set<string>): (after: Q.Counters)
    requires Q.ValidShares(s.shares) && Q.ValidShare(share)
    ensures Q.ValidShares(after.shares)
  {
    if 0.0 <= now < deadline then Q.Act(s, Q.ReserveShare(share, now, trusted)) else s
  }

  /** One reserving step of a job against the shared counters. */
  function ReserveShared(
    w: Shared, index: nat, pid: nat, input: Input, share: Q.Share, trusted: set<string>): (after: Shared)
    requires index < |w.jobs| && RequestOf(w.jobs[index], share) && Q.ValidShares(w.counters.shares)
    ensures Q.ValidShares(after.counters.shares)
  {
    var c := w.jobs[index];
    var answered := input.(quota := AnswerOf(w.counters, share, input.now, trusted, input.quota));
    Shared(
      w.jobs[index := Act(c, Step(pid, answered))],
      TryReserving(w.counters, share, input.now, c.record.envelope.deadline, trusted))
  }

  /** One settling step. */
  function SettleShared(w: Shared, index: nat, pid: nat, input: Input, actual: seq<UnitAmount>): (after: Shared)
    requires index < |w.jobs| && Q.ValidShares(w.counters.shares)
    ensures Q.ValidShares(after.counters.shares)
  {
    var c := w.jobs[index];
    var place := ShareOf(w.counters.shares, JobId(c));
    if place.None? then Shared(w.jobs[index := Act(c, Step(pid, input.(verified := false)))], w.counters)
    else
      var answered := input.(verified := CountersVerify(w.counters, place.value, actual));
      Shared(
        w.jobs[index := Act(c, Step(pid, answered))],
        if input.now >= 0.0
        then Q.Act(w.counters, Q.FinishShare(place.value, Amounts(actual), input.now)) else w.counters)
  }

  /** Reclaiming one job's stale reservation. */
  function ReclaimShared(w: Shared, index: nat, now: real): (after: Shared)
    requires index < |w.jobs| && Q.ValidShares(w.counters.shares)
    ensures Q.ValidShares(after.counters.shares)
  {
    var c := w.jobs[index];
    var place := ShareOf(w.counters.shares, JobId(c));
    if place.Some? && c.record.envelope.deadline <= now - STALE_RESERVATION_GRACE_SECONDS
    then
      Shared(
        w.jobs[index := Act(c, ExpireStaleReservation(now))], Q.Act(w.counters, Q.ExpireShare(place.value, now)))
    else w
  }

  function SharedAct(w: Shared, a: SharedAction): (after: Shared)
    requires Q.ValidShares(w.counters.shares)
    ensures Q.ValidShares(after.counters.shares)
  {
    match a
    case Arrive(job) =>
      if Initial(job) && NewIdentity(w.jobs, JobId(job)) && !Q.KnownId(w.counters.shares, JobId(job))
      then w.(jobs := w.jobs + [job]) else w
    case OnJob(index, action, share, trusted) =>
      if index >= |w.jobs| then w
      else
        match CallOf(w.jobs[index], action)
        case ReserveCall =>
          if share.Some? && RequestOf(w.jobs[index], share.value)
          then ReserveShared(w, index, action.pid, action.input, share.value, trusted) else w
        case SettleCall(actual) => SettleShared(w, index, action.pid, action.input, actual)
        case ReclaimCall => ReclaimShared(w, index, action.now)
        case NoCall => if action.EvictReservation? then w else w.(jobs := w.jobs[index := Act(w.jobs[index], action)])
  }

  function SharedRun(w: Shared, actions: seq<SharedAction>): (after: Shared)
    requires Q.ValidShares(w.counters.shares)
    ensures Q.ValidShares(after.counters.shares)
    decreases |actions|
  {
    if actions == [] then w else SharedRun(SharedAct(w, actions[0]), actions[1..])
  }

  /** Every request is made under these limits at most; they may differ from request to request. */
  predicate Limited(limits: map<string, int>, a: SharedAction) {
    a.OnJob? && a.action.Step? && a.share.Some? ==> Q.UnderLimits(a.share.value, limits, a.action.input.now)
  }

  predicate AllLimited(limits: map<string, int>, actions: seq<SharedAction>) {
    forall i :: 0 <= i < |actions| ==> Limited(limits, actions[i])
  }

  // ----- Invariant -----

  /** Shares hold one request each and tell what it came to. */
  predicate ShareOk(share: Q.Share) {
    && share.estimates == ONE_ESTIMATE && StoredState(share.state)
    && (share.actual == map[] || share.actual == map[Requests := 0] || share.actual == map[Requests := 1])
    && (share.state.Reserved? || share.state.ReservationExpired? ==> share.actual == map[])
  }

  predicate SharesOk(shares: seq<Q.Share>) {
    forall i :: 0 <= i < |shares| ==> ShareOk(shares[i])
  }

  /** A job's reservation is its share's, and what it was settled with is what the share consumed. */
  predicate Coupled(c: Cell, shares: seq<Q.Share>) {
    var place := ShareOf(shares, JobId(c));
    if place.None? then c.reservation.None? && c.history.settledWith.None?
    else
      var share := shares[place.value];
      && c.reservation == Some(ReservationOf(share, c.record.envelope.deadline))
      && (if Settled(share.state) then c.history.settledWith == Some(share.actual) else c.history.settledWith.None?)
  }

  predicate DistinctJobs(jobs: seq<Cell>) {
    forall i, j :: 0 <= i < j < |jobs| ==> JobId(jobs[i]) != JobId(jobs[j])
  }

  predicate JobsOk(jobs: seq<Cell>, shares: seq<Q.Share>) {
    forall i :: 0 <= i < |jobs| ==> Reachable(jobs[i]) && Coupled(jobs[i], shares)
  }

  ghost predicate SharedInv(w: Shared, limits: map<string, int>) {
    && Q.Inv(w.counters, limits) && SharesOk(w.counters.shares)
    && DistinctJobs(w.jobs) && JobsOk(w.jobs, w.counters.shares)
  }

  // ----- Where a share is -----

  lemma {:induction false} ShareIsFound(shares: seq<Q.Share>, i: nat)
    requires Q.DistinctShares(shares) && i < |shares|
    ensures ShareOf(shares, shares[i].id) == Some(i)
  {
  }

  lemma {:induction false} ReplacedShare(shares: seq<Q.Share>, i: nat, share: Q.Share, id: string)
    requires i < |shares| && share.id == shares[i].id
    ensures ShareOf(shares[i := share], id) == ShareOf(shares, id)
    decreases |shares|
  {
    var last := |shares| - 1;
    if i < last {
      assert shares[i := share][..last] == shares[..last][i := share];
      ReplacedShare(shares[..last], i, share, id);
    } else {
      assert shares[i := share][..last] == shares[..last];
    }
  }

  lemma {:induction false} AppendedShare(shares: seq<Q.Share>, share: Q.Share, id: string)
    ensures ShareOf(shares + [share], id) == if share.id == id then Some(|shares|) else ShareOf(shares, id)
  {
    assert (shares + [share])[..|shares|] == shares;
  }

  /** A share that changed is nobody else's. */
  lemma {:induction false} OthersStayCoupled(c: Cell, shares: seq<Q.Share>, i: nat, share: Q.Share)
    requires Q.DistinctShares(shares) && i < |shares| && share.id == shares[i].id != JobId(c)
    requires Coupled(c, shares)
    ensures Coupled(c, shares[i := share])
  {
    ReplacedShare(shares, i, share, JobId(c));
  }

  lemma {:induction false} NewShareIsNotMine(c: Cell, shares: seq<Q.Share>, share: Q.Share)
    requires share.id != JobId(c) && Coupled(c, shares)
    ensures Coupled(c, shares + [share])
  {
    AppendedShare(shares, share, JobId(c));
  }

  // ----- What one action of a job does to its reservation -----

  lemma {:induction false} ActKeepsIdentity(c: Cell, a: Action)
    requires Reachable(c)
    ensures Reachable(Act(c, a)) && Act(c, a).record.envelope == c.record.envelope
  {
    hide Reachable, Act;
    RunOne(c, a);
    RunsStayReachable(c, [a]);
  }

  lemma {:induction false} ReservingStep(c: Cell, pid: nat, input: Input)
    requires Reachable(c) && pid in c.processes && c.processes[pid].pc.Reserving? && input.ok
    ensures var after := Act(c, Step(pid, input));
      && after.reservation
         == Budgets.Reserve(c.reservation, ONE_ESTIMATE, c.record.envelope.deadline, input.now, input.quota).1
      && after.history.settledWith == c.history.settledWith
  {
    Here(c, pid);
    hide Inv, Sound, Facts, Budgets.Reserve;
  }

  lemma {:induction false} CreditingStep(c: Cell, pid: nat, input: Input)
    requires Reachable(c) && pid in c.processes && c.processes[pid].pc.Crediting? && input.ok
    ensures var after := Act(c, Step(pid, input)); var actual := c.processes[pid].pc.intent.actual;
      && OneRequest(actual)
      && after.reservation == FinishReservation(c.reservation, actual, input.now, input.verified).1
      && after.history.settledWith
         == (if after.reservation != c.reservation then after.reservation.value.actual else c.history.settledWith)
  {
    Here(c, pid);
    hide Inv, Sound, FinishReservation, EmergencyFacts, AccountingFacts;
  }

  lemma {:induction false} OtherSteps(c: Cell, a: Action)
    requires CallOf(c, a).NoCall? && !a.EvictReservation?
    ensures Act(c, a).reservation == c.reservation && Act(c, a).history.settledWith == c.history.settledWith
  {
    hide Transact, Stored, ValidIntent;
    if a.Step? && a.pid in c.processes && a.input.ok {
      QuietStep(c, a.pid, c.processes[a.pid], a.input);
    }
  }

  lemma {:induction false} QuietStep(c: Cell, pid: nat, p: Process, input: Input)
    requires input.ok && !p.pc.Reserving? && !p.pc.Crediting?
    ensures var after := ProcessStep(c, pid, p, input);
      after.reservation == c.reservation && after.history.settledWith == c.history.settledWith
  {
    hide Transact, Stored, ValidIntent;
  }

  // ----- One budget call against the shared counters -----

  /** One job moved on, keeping its identity; everybody's reservation is still its share's. */
  lemma {:induction false} JobMoves(w: Shared, limits: map<string, int>, index: nat, after: Cell, counters: Q.Counters)
    requires SharedInv(w, limits) && index < |w.jobs|
    requires Reachable(after) && JobId(after) == JobId(w.jobs[index]) && Coupled(after, counters.shares)
    requires Q.Inv(counters, limits) && SharesOk(counters.shares)
    requires forall j :: 0 <= j < |w.jobs| && j != index ==> Coupled(w.jobs[j], counters.shares)
    ensures SharedInv(Shared(w.jobs[index := after], counters), limits)
  {
    hide Reachable, Q.Inv, Coupled, SharesOk;
  }

  lemma {:induction false} OtherJobs(w: Shared, limits: map<string, int>, index: nat)
    requires SharedInv(w, limits) && index < |w.jobs|
    ensures forall j :: 0 <= j < |w.jobs| && j != index ==> JobId(w.jobs[j]) != JobId(w.jobs[index])
    ensures Reachable(w.jobs[index]) && Coupled(w.jobs[index], w.counters.shares)
    ensures Q.ValidShares(w.counters.shares) && Q.DistinctShares(w.counters.shares) && SharesOk(w.counters.shares)
    ensures Q.Inv(w.counters, limits)
  {
    hide Reachable, Coupled;
    forall j | 0 <= j < |w.jobs| && j != index ensures JobId(w.jobs[j]) != JobId(w.jobs[index]) {
      assert JobId(w.jobs[if j < index then j else index]) != JobId(w.jobs[if j < index then index else j]);
    }
  }

  /** Reserving against the counters is reserving with their answer. */
  lemma {:induction false} ReserveRefines(
    s: Q.Counters, share: Q.Share, now: real, deadline: real, trusted: set<string>, replay: QuotaAnswer)
    requires Q.ValidShares(s.shares) && Q.ValidShare(share) && share.estimates == ONE_ESTIMATE
    ensures var place := ShareOf(s.shares, share.id);
      var held := if place.Some? then Some(ReservationOf(s.shares[place.value], deadline)) else None;
      var after := TryReserving(s, share, now, deadline, trusted).shares;
      var kept := Budgets.Reserve(held, ONE_ESTIMATE, deadline, now, AnswerOf(s, share, now, trusted, replay)).1;
      if place.Some? then after == s.shares && kept == held
      else if kept.Some? then
        && after == s.shares + [share.(state := Reserved, actual := map[])]
        && kept == Some(ReservationOf(after[|s.shares|], deadline))
      else after == s.shares
  {
    hide Q.Judge, Q.Verified, Q.ValidShare;
  }

  lemma {:induction false} ReservingCouples(
    c: Cell, s: Q.Counters, pid: nat, input: Input, share: Q.Share, trusted: set<string>)
    requires Reachable(c) && Coupled(c, s.shares) && Q.ValidShares(s.shares) && RequestOf(c, share)
    requires CallOf(c, Step(pid, input)).ReserveCall?
    ensures var after := Act(c, Step(pid, input.(quota := AnswerOf(s, share, input.now, trusted, input.quota))));
      var shares := TryReserving(s, share, input.now, c.record.envelope.deadline, trusted).shares;
      && Coupled(after, shares)
      && (shares == s.shares || shares == s.shares + [share.(state := Reserved, actual := map[])])
  {
    var answered := input.(quota := AnswerOf(s, share, input.now, trusted, input.quota));
    var deadline := c.record.envelope.deadline;
    ReservingStep(c, pid, answered);
    ActKeepsIdentity(c, Step(pid, answered));
    ReserveRefines(s, share, input.now, deadline, trusted, input.quota);
    hide Reachable, Act, Q.ValidShare, AnswerOf, Budgets.Reserve, Q.Reserve, TryReserving;
    AppendedShare(s.shares, share.(state := Reserved, actual := map[]), JobId(c));
  }

  lemma {:induction false} ReservingKeeps(
    w: Shared, limits: map<string, int>, index: nat, pid: nat, input: Input, share: Q.Share, trusted: set<string>)
    requires SharedInv(w, limits) && index < |w.jobs| && RequestOf(w.jobs[index], share)
    requires Q.UnderLimits(share, limits, input.now)
    requires CallOf(w.jobs[index], Step(pid, input)).ReserveCall?
    ensures Q.ValidShares(w.counters.shares) && SharedInv(ReserveShared(w, index, pid, input, share, trusted), limits)
  {
    OtherJobs(w, limits, index);
    var c := w.jobs[index];
    var s := w.counters;
    var answered := input.(quota := AnswerOf(s, share, input.now, trusted, input.quota));
    var counters := TryReserving(s, share, input.now, c.record.envelope.deadline, trusted);
    ReservingCouples(c, s, pid, input, share, trusted);
    ActKeepsIdentity(c, Step(pid, answered));
    Q.ActKeeps(s, limits, Q.ReserveShare(share, input.now, trusted));
    assert Q.Inv(counters, limits);
    hide Reachable, Act, Q.Inv, Q.ValidShare, Q.UnderLimits, AnswerOf, TryReserving, SharedInv, Coupled, CallOf;
    var granted := share.(state := Reserved, actual := map[]);
    forall j | 0 <= j < |w.jobs| && j != index ensures Coupled(w.jobs[j], counters.shares) {
      AlsoCoupled(w, limits, j);
      NewShareIsNotMine(w.jobs[j], s.shares, granted);
    }
    JobMoves(w, limits, index, Act(c, Step(pid, answered)), counters);
  }

  lemma AlsoCoupled(w: Shared, limits: map<string, int>, j: nat)
    requires SharedInv(w, limits) && j < |w.jobs|
    ensures Coupled(w.jobs[j], w.counters.shares)
  {
    hide Reachable, Coupled, Q.Inv;
  }

  lemma {:induction false} OneRequestIs(actual: seq<UnitAmount>)
    requires OneRequest(actual)
    ensures actual != [] && DistinctUnits(actual) && forall k :: 0 <= k < |actual| ==> ValidAmount(actual[k])
    ensures Amounts(actual) == map[Requests := 0] || Amounts(actual) == map[Requests := 1]
  {
    assert actual[..0] == [];
  }

  /** Settling against the counters is settling with their verification. */
  lemma {:induction false} SettlingCouples(c: Cell, s: Q.Counters, i: nat, pid: nat, input: Input)
    requires Reachable(c) && Coupled(c, s.shares) && Q.ValidShares(s.shares) && SharesOk(s.shares)
    requires CallOf(c, Step(pid, input)).SettleCall? && ShareOf(s.shares, JobId(c)) == Some(i)
    ensures var actual := CallOf(c, Step(pid, input)).actual;
      var after := Act(c, Step(pid, input.(verified := CountersVerify(s, i, actual))));
      var counters := if input.now >= 0.0 then Q.Finish(s, i, Amounts(actual), input.now) else s;
      && Coupled(after, counters.shares)
      && exists share :: ShareOk(share) && share.id == s.shares[i].id && counters.shares == s.shares[i := share]
  {
    var actual := CallOf(c, Step(pid, input)).actual;
    var answered := input.(verified := CountersVerify(s, i, actual));
    var deadline := c.record.envelope.deadline;
    var share := Q.Finish(s, i, Amounts(actual), input.now).shares[i];
    CreditingStep(c, pid, answered);
    ActKeepsIdentity(c, Step(pid, answered));
    OneRequestIs(actual);
    assert ShareOk(s.shares[i]);
    hide Reachable, Act, Q.ValidShare, Q.Verified, Q.Countable;
    if input.now >= 0.0 { FinishRefines(s, i, actual, input.now, deadline); }
    FinishChanges(s, i, Amounts(actual), input.now);
    hide Q.Finish, Amounts, CountersVerify;
    ReplacedShare(s.shares, i, share, JobId(c));
    assert s.shares[i := s.shares[i]] == s.shares;
  }

  lemma {:induction false} FinishChanges(s: Q.Counters, i: nat, actual: map<UsageUnit, int>, now: real)
    requires i < |s.shares| && Q.ValidShare(s.shares[i]) && ShareOk(s.shares[i])
    requires actual == map[Requests := 0] || actual == map[Requests := 1]
    ensures var after := Q.Finish(s, i, actual, now).shares;
      && |after| == |s.shares| && after == s.shares[i := after[i]]
      && after[i].id == s.shares[i].id && ShareOk(after[i])
      && (after[i] == s.shares[i]
          || (s.shares[i].state.Reserved? && Settled(after[i].state) && after[i].actual == actual))
  {
    hide Q.ValidShare, Q.Verified, Q.Countable, Q.Settles, Q.CloseWindows, Q.Refund, Q.WriteCaps, Q.Leave;
  }

  lemma {:induction false} SettlingKeeps(w: Shared, limits: map<string, int>, index: nat, pid: nat, input: Input)
    requires SharedInv(w, limits) && index < |w.jobs| && CallOf(w.jobs[index], Step(pid, input)).SettleCall?
    ensures Q.ValidShares(w.counters.shares)
    ensures var actual := CallOf(w.jobs[index], Step(pid, input)).actual;
      SharedInv(SettleShared(w, index, pid, input, actual), limits)
  {
    OtherJobs(w, limits, index);
    var c := w.jobs[index];
    var s := w.counters;
    var actual := CallOf(c, Step(pid, input)).actual;
    var place := ShareOf(s.shares, JobId(c));
    if place.None? {
      NothingToSettle(w, limits, index, pid, input);
    } else {
      var i := place.value;
      var answered := input.(verified := CountersVerify(s, i, actual));
      SettlingCouples(c, s, i, pid, input);
      ActKeepsIdentity(c, Step(pid, answered));
      Q.ActKeeps(s, limits, Q.FinishShare(i, Amounts(actual), input.now));
      var counters := if input.now >= 0.0 then Q.Finish(s, i, Amounts(actual), input.now) else s;
      assert Q.Inv(counters, limits);
      hide Reachable, Act, Q.Inv, Q.ValidShare, CountersVerify, Amounts, Q.Finish, SharedInv, Coupled, CallOf, ShareOk;
      ReplacedKeeps(w, limits, index, Act(c, Step(pid, answered)), counters, i);
    }
  }

  /** A budget call that changed the job's own share keeps everything. */
  lemma {:induction false} ReplacedKeeps(
    w: Shared, limits: map<string, int>, index: nat, after: Cell, counters: Q.Counters, i: nat)
    requires SharedInv(w, limits) && index < |w.jobs| && i < |w.counters.shares|
    requires w.counters.shares[i].id == JobId(w.jobs[index])
    requires Reachable(after) && JobId(after) == JobId(w.jobs[index]) && Coupled(after, counters.shares)
    requires Q.Inv(counters, limits)
    requires exists share ::
      ShareOk(share) && share.id == w.counters.shares[i].id && counters.shares == w.counters.shares[i := share]
    ensures SharedInv(Shared(w.jobs[index := after], counters), limits)
  {
    OtherJobs(w, limits, index);
    hide Reachable, Q.Inv, SharedInv, Coupled, ShareOk;
    var share :| ShareOk(share) && share.id == w.counters.shares[i].id
      && counters.shares == w.counters.shares[i := share];
    forall j | 0 <= j < |w.jobs| && j != index ensures Coupled(w.jobs[j], counters.shares) {
      AlsoCoupled(w, limits, j);
      OthersStayCoupled(w.jobs[j], w.counters.shares, i, share);
    }
    JobMoves(w, limits, index, after, counters);
  }

  lemma {:induction false} NothingToSettle(w: Shared, limits: map<string, int>, index: nat, pid: nat, input: Input)
    requires SharedInv(w, limits) && index < |w.jobs| && CallOf(w.jobs[index], Step(pid, input)).SettleCall?
    requires ShareOf(w.counters.shares, JobId(w.jobs[index])).None?
    ensures SharedInv(
      Shared(w.jobs[index := Act(w.jobs[index], Step(pid, input.(verified := false)))], w.counters), limits)
  {
    OtherJobs(w, limits, index);
    var c := w.jobs[index];
    var answered := input.(verified := false);
    CreditingStep(c, pid, answered);
    ActKeepsIdentity(c, Step(pid, answered));
    hide Reachable, Act, Q.Inv, Amounts;
    forall j | 0 <= j < |w.jobs| ensures Coupled(w.jobs[j], w.counters.shares) { AlsoCoupled(w, limits, j); }
    hide SharedInv;
    JobMoves(w, limits, index, Act(c, Step(pid, answered)), w.counters);
  }

  /** Reclaiming the job's share is reclaiming its reservation. */
  lemma {:induction false} ReclaimingCouples(c: Cell, s: Q.Counters, i: nat, now: real)
    requires Reachable(c) && Coupled(c, s.shares) && Q.ValidShares(s.shares) && SharesOk(s.shares)
    requires ShareOf(s.shares, JobId(c)) == Some(i)
    requires c.record.envelope.deadline <= now - STALE_RESERVATION_GRACE_SECONDS
    ensures var after := Act(c, ExpireStaleReservation(now)); var shares := Q.Expire(s, i, now).shares;
      && Coupled(after, shares)
      && exists share :: ShareOk(share) && share.id == s.shares[i].id && shares == s.shares[i := share]
  {
    ExpireRefines(s, i, now, c.record.envelope.deadline);
    assert ShareOk(s.shares[i]);
    ExpireChanges(s, i, now);
    hide Reachable, Q.ValidShare, Q.Expire;
    ReplacedShare(s.shares, i, Q.Expire(s, i, now).shares[i], JobId(c));
  }

  lemma {:induction false} ExpireChanges(s: Q.Counters, i: nat, now: real)
    requires i < |s.shares| && Q.ValidShare(s.shares[i]) && ShareOk(s.shares[i])
    ensures var after := Q.Expire(s, i, now).shares;
      && |after| == |s.shares| && after == s.shares[i := after[i]]
      && after[i].id == s.shares[i].id && ShareOk(after[i])
      && (after[i] == s.shares[i] || (s.shares[i].state.Reserved? && after[i].state.ReservationExpired?))
  {
    hide Q.ValidShare, Q.CloseWindows, Q.Refund, Q.WriteCaps, Q.Leave;
  }

  lemma {:induction false} ReclaimingKeeps(w: Shared, limits: map<string, int>, index: nat, now: real)
    requires SharedInv(w, limits) && index < |w.jobs|
    ensures Q.ValidShares(w.counters.shares) && SharedInv(ReclaimShared(w, index, now), limits)
  {
    OtherJobs(w, limits, index);
    var c := w.jobs[index];
    var s := w.counters;
    var place := ShareOf(s.shares, JobId(c));
    if place.Some? && c.record.envelope.deadline <= now - STALE_RESERVATION_GRACE_SECONDS {
      var i := place.value;
      ReclaimingCouples(c, s, i, now);
      ActKeepsIdentity(c, ExpireStaleReservation(now));
      Q.ActKeeps(s, limits, Q.ExpireShare(i, now));
      hide Reachable, Act, Q.Inv, Q.ValidShare, Q.Expire, SharedInv, Coupled, ShareOk;
      ReplacedKeeps(w, limits, index, Act(c, ExpireStaleReservation(now)), Q.Expire(s, i, now), i);
    }
  }

  lemma {:induction false} QuietKeeps(w: Shared, limits: map<string, int>, index: nat, a: Action)
    requires SharedInv(w, limits) && index < |w.jobs| && CallOf(w.jobs[index], a).NoCall? && !a.EvictReservation?
    ensures SharedInv(w.(jobs := w.jobs[index := Act(w.jobs[index], a)]), limits)
  {
    OtherJobs(w, limits, index);
    var c := w.jobs[index];
    OtherSteps(c, a);
    ActKeepsIdentity(c, a);
    hide Reachable, Act, Q.Inv;
    forall j | 0 <= j < |w.jobs| ensures Coupled(w.jobs[j], w.counters.shares) { AlsoCoupled(w, limits, j); }
    hide SharedInv;
    JobMoves(w, limits, index, Act(c, a), w.counters);
  }

  lemma {:induction false} ArrivalKeeps(w: Shared, limits: map<string, int>, job: Cell)
    requires SharedInv(w, limits) && Initial(job) && NewIdentity(w.jobs, JobId(job))
    requires !Q.KnownId(w.counters.shares, JobId(job))
    ensures SharedInv(w.(jobs := w.jobs + [job]), limits)
  {
    JobsStartReachable(job);
    hide Reachable, Q.Inv;
  }

  // ----- Runs -----

  lemma {:induction false} SharedActKeeps(w: Shared, limits: map<string, int>, a: SharedAction)
    requires SharedInv(w, limits) && Limited(limits, a)
    ensures Q.ValidShares(w.counters.shares) && SharedInv(SharedAct(w, a), limits)
  {
    SharesAreValid(w, limits);
    hide SharedInv, Reachable, Initial, Q.UnderLimits, ReserveShared, SettleShared, ReclaimShared;
    match a {
      case Arrive(job) =>
        if Initial(job) && NewIdentity(w.jobs, JobId(job)) && !Q.KnownId(w.counters.shares, JobId(job)) {
          ArrivalKeeps(w, limits, job);
        }
      case OnJob(index, action, share, trusted) =>
        if index < |w.jobs| {
          match CallOf(w.jobs[index], action) {
            case ReserveCall =>
              if share.Some? && RequestOf(w.jobs[index], share.value) {
                ReservingKeeps(w, limits, index, action.pid, action.input, share.value, trusted);
              }
            case SettleCall(_) => SettlingKeeps(w, limits, index, action.pid, action.input);
            case ReclaimCall => ReclaimingKeeps(w, limits, index, action.now);
            case NoCall => if !action.EvictReservation? { QuietKeeps(w, limits, index, action); }
          }
        }
    }
  }

  lemma SharesAreValid(w: Shared, limits: map<string, int>)
    requires SharedInv(w, limits)
    ensures Q.ValidShares(w.counters.shares)
  {
  }

  lemma {:induction false} SharedRunKeeps(w: Shared, limits: map<string, int>, actions: seq<SharedAction>)
    requires SharedInv(w, limits) && AllLimited(limits, actions)
    ensures Q.ValidShares(w.counters.shares) && SharedInv(SharedRun(w, actions), limits)
    decreases |actions|
  {
    SharesAreValid(w, limits);
    hide SharedInv, SharedAct, Limited;
    if actions != [] {
      SharedActKeeps(w, limits, actions[0]);
      SharedRunKeeps(SharedAct(w, actions[0]), limits, actions[1..]);
    }
  }

  function Ran(actions: seq<SharedAction>): Shared {
    SharedRun(NO_JOBS, actions)
  }

  lemma {:induction false} RanHolds(limits: map<string, int>, actions: seq<SharedAction>)
    requires AllLimited(limits, actions)
    ensures SharedInv(Ran(actions), limits)
  {
    Q.NoCountersHold(limits);
    SharedRunKeeps(NO_JOBS, limits, actions);
  }

  // ----- What the counters promise the jobs -----

  predicate Lists(share: Q.Share, key: string) {
    exists k :: 0 <= k < |share.quotas| && share.quotas[k].key == key
  }

  /** The job ended with its delivery charged. */
  predicate Charged(c: Cell) {
    c.record.state.Terminal? && c.receipt.Some?
  }

  predicate HoldsReservation(c: Cell) {
    c.reservation.Some? && c.reservation.value.state.Reserved?
  }

  /** The job holds a place in this window: it reserved there, and is still open or was charged. */
  predicate TakesPlace(c: Cell, shares: seq<Q.Share>, key: string) {
    var place := ShareOf(shares, JobId(c));
    place.Some? && Lists(shares[place.value], key) && (HoldsReservation(c) || Charged(c))
  }

  function PlacesTaken(w: Shared, key: string): set<string> {
    set i | 0 <= i < |w.jobs| && TakesPlace(w.jobs[i], w.counters.shares, key) :: JobId(w.jobs[i])
  }

  /** The share weighs on the window. */
  predicate Weighs(share: Q.Share, key: string) {
    Lists(share, key) && (share.state.Reserved? || share.actual == ONE_ESTIMATE)
  }

  function WeighingIds(shares: seq<Q.Share>, key: string): set<string> {
    set i | 0 <= i < |shares| && Weighs(shares[i], key) :: shares[i].id
  }

  lemma {:induction false} ConsumedIsNatural(quotas: seq<Q.QuotaSpec>, actual: map<UsageUnit, int>, key: string)
    requires forall unit :: unit in actual ==> actual[unit] >= 0
    ensures Q.ConsumedOf(quotas, actual, key) >= 0
    ensures forall k :: 0 <= k < |quotas| && quotas[k].key == key && quotas[k].unit in actual ==>
      Q.ConsumedOf(quotas, actual, key) >= actual[quotas[k].unit]
  {
    if quotas != [] { ConsumedIsNatural(quotas[..|quotas| - 1], actual, key); }
  }

  lemma {:induction false} ShareWeight(share: Q.Share, key: string)
    requires Q.ValidShare(share) && ShareOk(share)
    ensures Q.HeldBy(share, key) >= 0 && Q.ConsumedBy(share, key) >= 0
    ensures Weighs(share, key) ==> Q.HeldBy(share, key) + Q.ConsumedBy(share, key) >= 1
  {
    Q.AmountNonnegative(share.quotas, key);
    ConsumedIsNatural(share.quotas, share.actual, key);
    if Weighs(share, key) {
      var k :| 0 <= k < |share.quotas| && share.quotas[k].key == key;
      assert share.quotas[k].unit in share.estimates;
    }
  }

  lemma {:induction false} WeightsAddUp(shares: seq<Q.Share>, key: string)
    requires Q.ValidShares(shares) && SharesOk(shares)
    ensures |WeighingIds(shares, key)| <= Q.TotalHeld(shares, key) + Q.TotalConsumed(shares, key)
  {
    hide Q.ValidShare, ShareOk, Q.HeldBy, Q.ConsumedBy, Weighs;
    if shares != [] {
      var shorter := shares[..|shares| - 1];
      var last := shares[|shares| - 1];
      WeightsAddUp(shorter, key);
      ShareWeight(last, key);
      assert WeighingIds(shares, key)
        == WeighingIds(shorter, key) + if Weighs(last, key) then {last.id} else {} by {
        assert shares == shorter + [last];
      }
    }
  }

  lemma {:induction false} ChargedIsConsumed(c: Cell)
    requires Reachable(c) && Charged(c)
    ensures c.history.settledWith == Some(ONE_ESTIMATE)
  {
    ReceiptFacts(c);
    hide EmergencyFacts, DeliveryFacts;
    OneRequestIs(c.record.settlement.value.actual);
  }

  /** A job that takes a place has a share that weighs. */
  lemma {:induction false} PlacesWeigh(c: Cell, shares: seq<Q.Share>, key: string)
    requires Reachable(c) && Coupled(c, shares) && TakesPlace(c, shares, key)
    ensures JobId(c) in WeighingIds(shares, key)
  {
    if Charged(c) { ChargedIsConsumed(c); }
    hide Reachable;
    assert Weighs(shares[ShareOf(shares, JobId(c)).value], key);
  }

  /**
   * Over every run of any jobs, the charged deliveries and open reservations in a quota window together never
   * exceed the largest limit the window was requested under.
   */
  lemma {:induction false} JobsStayWithinQuota(limits: map<string, int>, actions: seq<SharedAction>, key: string)
    requires AllLimited(limits, actions)
    ensures var places := PlacesTaken(Ran(actions), key);
      places != {} ==> key in limits && |places| <= limits[key]
  {
    var w := Ran(actions);
    RanHolds(limits, actions);
    hide Reachable, Ran, TakesPlace, Coupled;
    var shares := w.counters.shares;
    forall i | 0 <= i < |w.jobs| && TakesPlace(w.jobs[i], shares, key)
      ensures JobId(w.jobs[i]) in WeighingIds(shares, key)
    {
      PlacesWeigh(w.jobs[i], shares, key);
    }
    WeightsAddUp(shares, key);
    Q.SubsetSize(PlacesTaken(w, key), WeighingIds(shares, key));
    assert Q.WindowAt(w.counters.windows, key).held == Q.TotalHeld(shares, key);
  }

  /** The jobs holding an open reservation in a concurrency scope. */
  function OpenIn(w: Shared, scope: string): set<string> {
    set i | 0 <= i < |w.jobs| && HoldsReservation(w.jobs[i])
      && ShareOf(w.counters.shares, JobId(w.jobs[i])).Some?
      && Q.HasScope(w.counters.shares[ShareOf(w.counters.shares, JobId(w.jobs[i])).value], scope) :: JobId(w.jobs[i])
  }

  /** Open reservations of any jobs never exceed the largest limit of a concurrency scope they list. */
  lemma {:induction false} JobsStayWithinConcurrency(
    limits: map<string, int>, actions: seq<SharedAction>, scope: string)
    requires AllLimited(limits, actions)
    ensures var jobs := OpenIn(Ran(actions), scope);
      jobs != {} ==> scope in limits && |jobs| <= limits[scope]
  {
    var w := Ran(actions);
    RanHolds(limits, actions);
    hide Reachable, Ran;
    var shares := w.counters.shares;
    forall id | id in OpenIn(w, scope) ensures id in Q.Holders(shares, scope) {
      var i :| 0 <= i < |w.jobs| && JobId(w.jobs[i]) == id && HoldsReservation(w.jobs[i])
        && ShareOf(shares, id).Some? && Q.HasScope(shares[ShareOf(shares, id).value], scope);
      assert Coupled(w.jobs[i], shares);
      assert shares[ShareOf(shares, id).value].state.Reserved?;
    }
    Q.SubsetSize(OpenIn(w, scope), Q.Holders(shares, scope));
    assert Q.MembersOf(w.counters.members, scope) == Q.Holders(shares, scope);
  }

  // ----- Each job runs its own protocol -----

  /** What a job's budget call is told: its own action, with the answers that only the counters can give. */
  function Told(w: Shared, index: nat, a: Action, share: Option<Q.Share>, trusted: set<string>): Action
    requires index < |w.jobs|
  {
    var c := w.jobs[index];
    var place := ShareOf(w.counters.shares, JobId(c));
    match CallOf(c, a)
    case ReserveCall =>
      if place.Some? && !a.input.quota.BindingChanged? then
        Step(a.pid, a.input.(
          quota := if Q.Verified(w.counters, w.counters.shares[place.value]) then Granted else CountersUnavailable))
      else if place.Some? || share.None? || !Q.ValidShare(share.value) then a
      else
        var judged := Q.Judge(w.counters, share.value, a.input.now, trusted);
        Step(a.pid, a.input.(
          quota := match judged
                   case Admitted => Granted
                   case Waiting(retry) => Denied(retry)
                   case NeverFits => TooLarge
                   case Unavailable => CountersUnavailable))
    case SettleCall(actual) =>
      Step(a.pid, a.input.(verified := place.Some? && CountersVerify(w.counters, place.value, actual)))
    case _ => a
  }

  /** The action is taken: no reservation is asked for with a foreign request, and nothing is evicted. */
  predicate Taken(w: Shared, index: nat, a: Action, share: Option<Q.Share>)
    requires index < |w.jobs|
  {
    && !a.EvictReservation?
    && (CallOf(w.jobs[index], a).ReserveCall? ==> share.Some? && RequestOf(w.jobs[index], share.value))
  }

  /** An action moves its own job by exactly one step of the protocol, on the counters' answers, and no other job. */
  lemma {:induction false} EachActionIsAStep(
    w: Shared, limits: map<string, int>, index: nat, a: Action, share: Option<Q.Share>, trusted: set<string>)
    requires SharedInv(w, limits) && index < |w.jobs|
    ensures Q.ValidShares(w.counters.shares)
    ensures SharedAct(w, SharedAction.OnJob(index, a, share, trusted)).jobs
      == if Taken(w, index, a, share) then w.jobs[index := Act(w.jobs[index], Told(w, index, a, share, trusted))]
         else w.jobs
  {
    OtherJobs(w, limits, index);
    assert w.jobs[index := w.jobs[index]] == w.jobs;
    match CallOf(w.jobs[index], a) {
      case ReserveCall => ReservingIsAStep(w, index, a, share, trusted);
      case SettleCall(_) => SettlingIsAStep(w, index, a, share, trusted);
      case ReclaimCall =>
        StaleIsReclaimed(w.jobs[index], w.counters.shares, a.now);
        hide SharedInv, Q.Inv, Reachable, Q.Expire, Coupled;
      case NoCall => hide SharedInv, Q.Inv, Reachable, Coupled, Act;
    }
  }

  lemma {:induction false} ReservingIsAStep(
    w: Shared, index: nat, a: Action, share: Option<Q.Share>, trusted: set<string>)
    requires Q.ValidShares(w.counters.shares) && index < |w.jobs| && CallOf(w.jobs[index], a).ReserveCall?
    ensures SharedAct(w, SharedAction.OnJob(index, a, share, trusted)).jobs
      == if Taken(w, index, a, share) then w.jobs[index := Act(w.jobs[index], Told(w, index, a, share, trusted))]
         else w.jobs
  {
    hide Q.Judge, Q.Verified, Q.Reserve, Act, TryReserving;
  }

  lemma {:induction false} SettlingIsAStep(
    w: Shared, index: nat, a: Action, share: Option<Q.Share>, trusted: set<string>)
    requires Q.ValidShares(w.counters.shares) && index < |w.jobs| && CallOf(w.jobs[index], a).SettleCall?
    ensures SharedAct(w, SharedAction.OnJob(index, a, share, trusted)).jobs
      == w.jobs[index := Act(w.jobs[index], Told(w, index, a, share, trusted))]
  {
    hide Q.Verified, Q.Countable, Q.Finish, Q.Act, Act, Amounts;
  }

  /** Without a stale share there is nothing to reclaim. */
  lemma {:induction false} StaleIsReclaimed(c: Cell, shares: seq<Q.Share>, now: real)
    requires Coupled(c, shares)
    ensures ShareOf(shares, JobId(c)).None? || c.record.envelope.deadline > now - STALE_RESERVATION_GRACE_SECONDS ==>
      Act(c, ExpireStaleReservation(now)) == c
  {
  }

  /** The job came about by a run of its own from its acceptance. */
  ghost predicate Protocol(c: Cell) {
    exists start: Cell, actions: seq<Action> :: Initial(start) && c == Run(start, actions)
  }

  lemma {:induction false} RunsOn(start: Cell, actions: seq<Action>, a: Action)
    ensures Run(start, actions + [a]) == Act(Run(start, actions), a)
    decreases |actions|
  {
    hide Act;
    if actions == [] {
      assert [] + [a] == [a];
      RunOne(start, a);
    } else {
      assert (actions + [a])[1..] == actions[1..] + [a];
      RunsOn(Act(start, actions[0]), actions[1..], a);
    }
  }

  lemma {:induction false} ProtocolGoesOn(c: Cell, a: Action)
    requires Protocol(c)
    ensures Protocol(Act(c, a))
  {
    hide Initial, Act, Run;
    var start: Cell, actions: seq<Action> :| Initial(start) && c == Run(start, actions);
    RunsOn(start, actions, a);
  }

  lemma {:induction false} ProtocolBegins(c: Cell)
    requires Initial(c)
    ensures Protocol(c)
  {
    hide Initial;
    assert Run(c, []) == c;
  }

  lemma {:induction false} ActKeepsProtocol(w: Shared, limits: map<string, int>, a: SharedAction)
    requires SharedInv(w, limits) && forall i :: 0 <= i < |w.jobs| ==> Protocol(w.jobs[i])
    ensures Q.ValidShares(w.counters.shares)
    ensures forall i :: 0 <= i < |SharedAct(w, a).jobs| ==> Protocol(SharedAct(w, a).jobs[i])
  {
    SharesAreValid(w, limits);
    hide SharedInv, Protocol, Initial;
    match a {
      case Arrive(job) => if Initial(job) { ProtocolBegins(job); }
      case OnJob(index, action, share, trusted) =>
        if index < |w.jobs| {
          EachActionIsAStep(w, limits, index, action, share, trusted);
          hide SharedAct;
          ProtocolGoesOn(w.jobs[index], Told(w, index, action, share, trusted));
        }
    }
  }

  lemma {:induction false} RunKeepsProtocol(w: Shared, limits: map<string, int>, actions: seq<SharedAction>)
    requires SharedInv(w, limits) && AllLimited(limits, actions)
    requires forall i :: 0 <= i < |w.jobs| ==> Protocol(w.jobs[i])
    ensures Q.ValidShares(w.counters.shares)
    ensures forall i :: 0 <= i < |SharedRun(w, actions).jobs| ==> Protocol(SharedRun(w, actions).jobs[i])
    decreases |actions|
  {
    SharesAreValid(w, limits);
    hide SharedInv, SharedAct, Limited, Protocol;
    if actions != [] {
      SharedActKeeps(w, limits, actions[0]);
      ActKeepsProtocol(w, limits, actions[0]);
      RunKeepsProtocol(SharedAct(w, actions[0]), limits, actions[1..]);
    }
  }

  /**
   * Over every run of any jobs beside one set of counters, each job is one its own protocol reaches from its
   * acceptance: whatever is guaranteed of every run of one job holds of all of them together.
   */
  lemma {:induction false} JobsRunTheirProtocol(limits: map<string, int>, actions: seq<SharedAction>, k: nat)
    requires AllLimited(limits, actions) && k < |Ran(actions).jobs|
    ensures exists start: Cell, own: seq<Action> :: Initial(start) && Ran(actions).jobs[k] == Run(start, own)
  {
    Q.NoCountersHold(limits);
    RunKeepsProtocol(NO_JOBS, limits, actions);
    hide Initial, Run;
    assert Protocol(Ran(actions).jobs[k]);
  }

  /** A fresh job of a new identity joins the others as it is. */
  lemma ArrivesExactly(w: Shared, job: Cell)
    requires Q.ValidShares(w.counters.shares) && Initial(job)
    ensures SharedAct(w, Arrive(job))
      == if NewIdentity(w.jobs, JobId(job)) && !Q.KnownId(w.counters.shares, JobId(job))
         then w.(jobs := w.jobs + [job]) else w
  {
    hide Initial;
  }
}
