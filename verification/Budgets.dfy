/** Runtime budget reservations for one job: reserve once, settle once, reclaim when stale. */
module Budgets {
  import opened Wrappers
  import opened Usage

  const STALE_RESERVATION_GRACE_SECONDS: real := 600.0

  datatype ReservationState =
    | Reserved | Committed | Credited | QuotaWaiting | BudgetUnavailable | ReservationExpired | Impossible

  /** A stored reservation; only reserved, committed, credited (released) and expired ones are stored. */
  datatype Reservation = Reservation(
    state: ReservationState,
    deadline: real,
    estimates: map<UsageUnit, int>,
    actual: Option<map<UsageUnit, int>>)

  datatype Decision = Decision(state: ReservationState, nextEligibleAt: Option<real>)

  datatype BudgetError = InvalidReservation | InvalidSettlement | SettlementMismatch | ReservationMismatch

  /** What the quota and concurrency counters answer for a new request. */
  datatype QuotaAnswer =
    | Granted
    | Denied(retry: real)
    | TooLarge
    | CountersUnavailable
    | BindingChanged

  function NoHint(state: ReservationState): Decision {
    Decision(state, None)
  }

  /** Reserve under the job's identity; an existing reservation is replayed, never taken again. */
  function Reserve(
    stored: Option<Reservation>, estimates: map<UsageUnit, int>, deadline: real, now: real, quota: QuotaAnswer)
    : (Result<Decision, BudgetError>, Option<Reservation>)
  {
    if now < 0.0 then (Failure(InvalidReservation), stored)
    else if stored.Some? then
      var held := stored.value;
      if quota.BindingChanged? then (Failure(ReservationMismatch), stored)
      else if !held.state.Reserved? then (Success(NoHint(held.state)), stored)
      else if now >= deadline then (Success(NoHint(ReservationExpired)), stored)
      else if quota.CountersUnavailable? then (Success(NoHint(BudgetUnavailable)), stored)
      else (Success(NoHint(Reserved)), stored)
    else if deadline <= now then (Success(NoHint(ReservationExpired)), None)
    else
      match quota
      case Granted => (Success(NoHint(Reserved)), Some(Reservation(Reserved, deadline, estimates, None)))
      case Denied(retry) => (Success(Decision(QuotaWaiting, Some(retry))), None)
      case TooLarge => (Success(NoHint(Impossible)), None)
      case _ => (Success(NoHint(BudgetUnavailable)), None)
  }

  /** Settlement amounts cover exactly the estimated units and never exceed them. */
  predicate WithinEstimates(actual: map<UsageUnit, int>, estimates: map<UsageUnit, int>) {
    actual.Keys == estimates.Keys && forall unit :: unit in actual ==> actual[unit] <= estimates[unit]
  }

  /** Settle a reservation; a settled or expired one only accepts a replay of its own amounts. */
  function FinishReservation(stored: Option<Reservation>, actual: seq<UnitAmount>, now: real, verified: bool)
    : (Result<ReservationState, BudgetError>, Option<Reservation>)
  {
    if actual == [] || !DistinctUnits(actual) || now < 0.0 then (Failure(InvalidSettlement), stored)
    else if stored.None? then (Success(BudgetUnavailable), stored)
    else
      var amounts := Amounts(actual);
      if !WithinEstimates(amounts, stored.value.estimates) then (Failure(SettlementMismatch), stored)
      else if !stored.value.state.Reserved? then
        if stored.value.actual != Some(amounts) then (Failure(SettlementMismatch), stored)
        else (Success(stored.value.state), stored)
      else if !verified then (Success(BudgetUnavailable), stored)
      else
        var state := if AnyConsumed(actual) then Committed else Credited;
        (Success(state), Some(stored.value.(state := state, actual := Some(amounts))))
  }

  /** Reclaim a reservation whose owner is far past its deadline; it keeps no settled amounts. */
  function ExpireStale(stored: Option<Reservation>, now: real): Option<Reservation> {
    if stored.Some? && stored.value.state.Reserved?
       && stored.value.deadline <= now - STALE_RESERVATION_GRACE_SECONDS
    then Some(stored.value.(state := ReservationExpired, actual := None))
    else stored
  }

  predicate Settled(state: ReservationState) {
    state.Committed? || state.Credited?
  }

  /**
   * Work may go on exactly in time and with a reservation of its own: a new one that is granted, or an open one
   * whose request is the same and whose counters can be read. A stored reservation is never taken again, and a
   * closed one only tells how it was closed.
   */
  lemma AllowsExactly(
    stored: Option<Reservation>, estimates: map<UsageUnit, int>, deadline: real, now: real, quota: QuotaAnswer)
    ensures var (answer, after) := Reserve(stored, estimates, deadline, now, quota);
      && (answer.Success? && answer.value.state.Reserved? <==>
            0.0 <= now && (stored.Some? ==> stored.value.state.Reserved?) && now < deadline
            && (if stored.Some? then !quota.BindingChanged? && !quota.CountersUnavailable? else quota.Granted?))
      && (stored.Some? ==> after == stored)
      && (stored.Some? && !stored.value.state.Reserved? && 0.0 <= now && !quota.BindingChanged? ==>
            answer == Success(NoHint(stored.value.state)))
      && (stored.Some? && stored.value.state.Reserved? && now >= deadline && 0.0 <= now && !quota.BindingChanged? ==>
            answer == Success(NoHint(ReservationExpired)))
      && (stored.None? && after.Some? ==>
            after.value == Reservation(Reserved, deadline, estimates, None) && answer == Success(NoHint(Reserved)))
  {
  }

  lemma {:induction false} AmountsTell(actual: seq<UnitAmount>)
    requires DistinctUnits(actual)
    ensures Amounts(actual).Keys == set i | 0 <= i < |actual| :: actual[i].unit
    ensures forall i :: 0 <= i < |actual| ==> Amounts(actual)[actual[i].unit] == actual[i].amount
  {
    if actual != [] {
      var last := |actual| - 1;
      var shorter := actual[..last];
      AmountsTell(shorter);
      assert forall i :: 0 <= i < last ==> shorter[i] == actual[i] && shorter[i].unit != actual[last].unit;
      assert (set i | 0 <= i < |actual| :: actual[i].unit)
        == (set i | 0 <= i < last :: shorter[i].unit) + {actual[last].unit};
    }
  }

  /** Exactly the reserved units, each by at most what was reserved. */
  predicate Covers(actual: seq<UnitAmount>, estimates: map<UsageUnit, int>) {
    && (set i | 0 <= i < |actual| :: actual[i].unit) == estimates.Keys
    && forall i :: 0 <= i < |actual| ==> actual[i].unit in estimates && actual[i].amount <= estimates[actual[i].unit]
  }

  /**
   * An open reservation is closed exactly by amounts that cover it, once its counters verify; it is committed when
   * anything was consumed and given back otherwise. Nothing else changes an open reservation, and a closed one
   * never changes.
   */
  lemma {:induction false} ClosesExactly(held: Reservation, actual: seq<UnitAmount>, now: real, verified: bool)
    requires held.state.Reserved?
    ensures var (answer, after) := FinishReservation(Some(held), actual, now, verified);
      var closes := actual != [] && DistinctUnits(actual) && 0.0 <= now && Covers(actual, held.estimates) && verified;
      && (answer.Success? && Settled(answer.value) <==> closes)
      && after == (if closes
                   then Some(held.(
                     state := if exists i :: 0 <= i < |actual| && actual[i].amount != 0 then Committed else Credited,
                     actual := Some(Amounts(actual))))
                   else Some(held))
  {
    if DistinctUnits(actual) {
      AmountsTell(actual);
      if WithinEstimates(Amounts(actual), held.estimates) {
        forall i | 0 <= i < |actual|
          ensures actual[i].unit in held.estimates && actual[i].amount <= held.estimates[actual[i].unit]
        {
          assert Amounts(actual)[actual[i].unit] == actual[i].amount;
        }
      }
      if Covers(actual, held.estimates) {
        forall unit | unit in Amounts(actual) ensures Amounts(actual)[unit] <= held.estimates[unit] {
          var i :| 0 <= i < |actual| && actual[i].unit == unit;
        }
      }
    }
  }

  /** A closed reservation only accepts its own amounts again, and stays as it is. */
  lemma {:induction false} ClosedStays(held: Reservation, actual: seq<UnitAmount>, now: real, verified: bool)
    requires !held.state.Reserved?
    ensures var (answer, after) := FinishReservation(Some(held), actual, now, verified);
      && after == Some(held)
      && (answer.Success? ==> answer.value == held.state && held.actual == Some(Amounts(actual)))
  {
  }

  /** A reservation is reclaimed exactly when it is open and ten minutes past its deadline. */
  lemma ReclaimedExactly(held: Reservation, now: real)
    ensures ExpireStale(Some(held), now)
      == if held.state.Reserved? && held.deadline + 600.0 <= now
         then Some(held.(state := ReservationExpired, actual := None)) else Some(held)
    ensures ExpireStale(None, now).None?
  {
  }
}
