/**
 * The shared counters behind runtime budgets: quota windows, token buckets and concurrency sets, as
 * reservations take them all at once, settle, or are reclaimed.
 */
module QuotaCounters {
  import opened Wrappers
  import opened Usage
  import opened Budgets

  datatype QuotaSpec = QuotaSpec(
    key: string, rate: string, unit: UsageUnit, amount: int, baseline: int, limit: int, burst: int, seconds: int,
    ends: int)

  datatype ScopeSpec = ScopeSpec(key: string, limit: int)

  datatype Window = Window(used: int, held: int)

  datatype Bucket = Bucket(tokens: real, at: real)

  /** A reservation's share: its quota windows, and the global scope followed by one scope per quota. */
  datatype Share = Share(
    id: string, quotas: seq<QuotaSpec>, scopes: seq<ScopeSpec>, estimates: map<UsageUnit, int>,
    state: ReservationState, actual: map<UsageUnit, int>)

  /** `caps` remembers the burst each bucket was last written under; nothing in the system reads it. */
  datatype Counters = Counters(
    windows: map<string, Window>, buckets: map<string, Bucket>, caps: map<string, int>,
    members: map<string, set<string>>, shares: seq<Share>)

  const NO_COUNTERS := Counters(map[], map[], map[], map[], [])

  function WindowAt(windows: map<string, Window>, key: string): Window {
    if key in windows then windows[key] else Window(0, 0)
  }

  function MembersOf(members: map<string, set<string>>, scope: string): set<string> {
    if scope in members then members[scope] else {}
  }

  function Max(a: int, b: int): int {
    if a < b then b else a
  }

  function MaxReal(a: real, b: real): real {
    if a < b then b else a
  }

  function MinReal(a: real, b: real): real {
    if a < b then a else b
  }

  /** What a reservation request guarantees about its own numbers. */
  predicate ValidQuota(q: QuotaSpec, now: real) {
    && 0 < q.amount <= MAX_EXACT_INTEGER && 0 <= q.baseline <= MAX_EXACT_INTEGER
    && 0 < q.limit <= MAX_EXACT_INTEGER && 0 < q.burst <= q.limit && q.seconds > 0
    && now.Floor < q.ends
  }

  predicate DistinctQuotas(quotas: seq<QuotaSpec>) {
    forall i, j :: 0 <= i < j < |quotas| ==> quotas[i].key != quotas[j].key && quotas[i].rate != quotas[j].rate
  }

  predicate DistinctScopes(scopes: seq<ScopeSpec>) {
    forall i, j :: 0 <= i < j < |scopes| ==> scopes[i].key != scopes[j].key
  }

  predicate ValidShare(share: Share) {
    && |share.scopes| == |share.quotas| + 1
    && DistinctQuotas(share.quotas) && DistinctScopes(share.scopes)
    && forall i :: 0 <= i < |share.quotas| ==>
         && share.quotas[i].unit in share.estimates && share.quotas[i].amount == share.estimates[share.quotas[i].unit]
         && share.quotas[i].amount > 0 && share.quotas[i].limit > 0 && share.quotas[i].burst > 0
         && share.quotas[i].seconds > 0 && share.quotas[i].baseline >= 0
  }

  // ----- Reserving -----

  datatype Answer = Admitted | Waiting(retry: real) | NeverFits | Unavailable

  /** Tokens a bucket gained since it was last written, at limit per window. */
  function Gained(q: QuotaSpec, bucket: Bucket, now: real): real
    requires q.seconds > 0
  {
    MaxReal(0.0, now - bucket.at) * q.limit as real / q.seconds as real
  }

  /** Tokens available now, refilled and capped at the burst. */
  function Refilled(q: QuotaSpec, bucket: Bucket, now: real): real
    requires q.seconds > 0
  {
    MinReal(q.burst as real, bucket.tokens + Gained(q, bucket, now))
  }

  function BucketAt(s: Counters, q: QuotaSpec, now: real): Bucket {
    if q.rate in s.buckets then s.buckets[q.rate] else Bucket(q.burst as real, now)
  }

  /** Why a quota cannot be judged at all, if it cannot. */
  function Problem(s: Counters, q: QuotaSpec, scope: string, trusted: set<string>): Option<Answer> {
    if q.amount > q.burst || q.amount > q.limit then Some(NeverFits)
    else if q.key in s.windows && q.rate !in s.buckets then Some(Unavailable)
    else if q.key !in s.windows && MembersOf(s.members, scope) != {} && q.key !in trusted then Some(Unavailable)
    else if WindowAt(s.windows, q.key).held + q.amount > MAX_EXACT_INTEGER then Some(Unavailable)
    else None
  }

  function FirstProblem(s: Counters, share: Share, trusted: set<string>, n: nat): Option<Answer>
    requires n <= |share.quotas| && |share.scopes| == |share.quotas| + 1
  {
    if n == 0 then None
    else
      var earlier := FirstProblem(s, share, trusted, n - 1);
      if earlier.Some? then earlier else Problem(s, share.quotas[n - 1], share.scopes[n].key, trusted)
  }

  /** Seconds until the missing tokens have been refilled. */
  function Wait(missing: real, seconds: int, limit: int): real
    requires limit > 0
  {
    missing * seconds as real / limit as real
  }

  /** The earliest time at which one quota could admit the request. */
  function QuotaRetry(s: Counters, q: QuotaSpec, now: real): real
    requires q.seconds > 0 && q.limit > 0
  {
    var w := WindowAt(s.windows, q.key);
    var tokens := Refilled(q, BucketAt(s, q, now), now);
    var full := if Max(w.used, q.baseline) + w.held + q.amount > q.limit then q.ends as real else now;
    var dry := if tokens < q.amount as real then now + Wait(q.amount as real - tokens, q.seconds, q.limit) else now;
    MaxReal(full, dry)
  }

  function Retry(s: Counters, share: Share, now: real, n: nat): real
    requires n <= |share.quotas|
    requires forall i :: 0 <= i < |share.quotas| ==> share.quotas[i].seconds > 0 && share.quotas[i].limit > 0
  {
    if n == 0 then now else MaxReal(Retry(s, share, now, n - 1), QuotaRetry(s, share.quotas[n - 1], now))
  }

  predicate ScopeFull(s: Counters, scope: ScopeSpec) {
    |MembersOf(s.members, scope.key)| >= scope.limit
  }

  function Judge(s: Counters, share: Share, now: real, trusted: set<string>): Answer
    requires ValidShare(share)
  {
    var problem := FirstProblem(s, share, trusted, |share.quotas|);
    if problem.Some? then problem.value
    else
      var quotas := Retry(s, share, now, |share.quotas|);
      var full := exists i :: 0 <= i < |share.scopes| && ScopeFull(s, share.scopes[i]);
      var retry := if full then MaxReal(quotas, now + 1.0) else quotas;
      if retry > now then Waiting(retry) else Admitted
  }

  function TakeWindows(windows: map<string, Window>, quotas: seq<QuotaSpec>): map<string, Window> {
    if quotas == [] then windows
    else
      var q := quotas[|quotas| - 1];
      var before := TakeWindows(windows, quotas[..|quotas| - 1]);
      var w := WindowAt(before, q.key);
      before[q.key := Window(Max(w.used, q.baseline), w.held + q.amount)]
  }

  function TakeTokens(s: Counters, quotas: seq<QuotaSpec>, now: real): map<string, Bucket>
    requires forall i :: 0 <= i < |quotas| ==> quotas[i].seconds > 0
  {
    if quotas == [] then s.buckets
    else
      var q := quotas[|quotas| - 1];
      TakeTokens(s, quotas[..|quotas| - 1], now)[
        q.rate := Bucket(Refilled(q, BucketAt(s, q, now), now) - q.amount as real, now)]
  }

  function WriteCaps(caps: map<string, int>, quotas: seq<QuotaSpec>): map<string, int> {
    if quotas == [] then caps
    else WriteCaps(caps, quotas[..|quotas| - 1])[quotas[|quotas| - 1].rate := quotas[|quotas| - 1].burst]
  }

  function Join(members: map<string, set<string>>, scopes: seq<ScopeSpec>, id: string): map<string, set<string>> {
    if scopes == [] then members
    else
      var scope := scopes[|scopes| - 1].key;
      var before := Join(members, scopes[..|scopes| - 1], id);
      before[scope := MembersOf(before, scope) + {id}]
  }

  function Leave(members: map<string, set<string>>, scopes: seq<ScopeSpec>, id: string): map<string, set<string>> {
    if scopes == [] then members
    else
      var scope := scopes[|scopes| - 1].key;
      var before := Leave(members, scopes[..|scopes| - 1], id);
      before[scope := MembersOf(before, scope) - {id}]
  }

  predicate KnownId(shares: seq<Share>, id: string) {
    exists i :: 0 <= i < |shares| && shares[i].id == id
  }

  /** All windows, buckets and scopes at once, or nothing. */
  function Reserve(s: Counters, share: Share, now: real, trusted: set<string>): Counters
    requires ValidShare(share)
  {
    if KnownId(s.shares, share.id) || !Judge(s, share, now, trusted).Admitted? then s
    else
      Counters(
        TakeWindows(s.windows, share.quotas),
        TakeTokens(s, share.quotas, now),
        WriteCaps(s.caps, share.quotas),
        Join(s.members, share.scopes, share.id),
        s.shares + [share.(state := Reserved, actual := map[])])
  }

  // ----- Settling and reclaiming -----

  /** Missing counters never authorise a settlement. */
  predicate Verified(s: Counters, share: Share) {
    && (forall i :: 0 <= i < |share.quotas| ==>
          var q := share.quotas[i];
          && q.key in s.windows && s.windows[q.key].held >= q.amount && s.windows[q.key].used >= 0
          && q.rate in s.buckets && 0.0 <= s.buckets[q.rate].tokens <= q.burst as real)
    && forall i :: 0 <= i < |share.scopes| ==> share.id in MembersOf(s.members, share.scopes[i].key)
  }

  /** Close quota windows: held amounts leave, what was consumed is used. */
  function CloseWindows(
    windows: map<string, Window>, quotas: seq<QuotaSpec>, actual: map<UsageUnit, int>): map<string, Window>
  {
    if quotas == [] then windows
    else
      var q := quotas[|quotas| - 1];
      var before := CloseWindows(windows, quotas[..|quotas| - 1], actual);
      var w := WindowAt(before, q.key);
      if q.key !in before then before
      else before[q.key := Window(w.used + (if q.unit in actual then actual[q.unit] else 0), Max(0, w.held - q.amount))]
  }

  predicate Settles(share: Share, actual: map<UsageUnit, int>) {
    WithinEstimates(actual, share.estimates) && forall unit :: unit in actual ==> actual[unit] >= 0
  }

  /** The settlement keeps every used counter exact. */
  predicate Countable(s: Counters, share: Share, actual: map<UsageUnit, int>) {
    forall i :: 0 <= i < |share.quotas| && share.quotas[i].unit in actual ==>
      WindowAt(s.windows, share.quotas[i].key).used + actual[share.quotas[i].unit] <= MAX_EXACT_INTEGER
  }

  /** Refund the difference between the reserved and the consumed amount to each bucket. */
  function Refund(s: Counters, quotas: seq<QuotaSpec>, actual: map<UsageUnit, int>, now: real): map<string, Bucket>
    requires forall i :: 0 <= i < |quotas| ==> quotas[i].seconds > 0
  {
    if quotas == [] then s.buckets
    else
      var q := quotas[|quotas| - 1];
      var bucket := BucketAt(s, q, now);
      var back := q.amount - if q.unit in actual then actual[q.unit] else 0;
      Refund(s, quotas[..|quotas| - 1], actual, now)[
        q.rate := Bucket(MinReal(q.burst as real, bucket.tokens + Gained(q, bucket, now) + back as real), now)]
  }

  function Close(s: Counters, i: nat, state: ReservationState, actual: map<UsageUnit, int>, now: real): Counters
    requires i < |s.shares| && ValidShare(s.shares[i])
  {
    var share := s.shares[i];
    Counters(
      CloseWindows(s.windows, share.quotas, actual),
      Refund(s, share.quotas, actual, now),
      WriteCaps(s.caps, share.quotas),
      Leave(s.members, share.scopes, share.id),
      s.shares[i := share.(state := state, actual := actual)])
  }

  predicate AnyNonzero(actual: map<UsageUnit, int>) {
    exists unit :: unit in actual && actual[unit] != 0
  }

  /** Settle a reserved share once its counters verify. */
  function Finish(s: Counters, i: nat, actual: map<UsageUnit, int>, now: real): Counters
    requires i < |s.shares| && ValidShare(s.shares[i])
  {
    var share := s.shares[i];
    if !share.state.Reserved? || !Settles(share, actual) || !Verified(s, share) || !Countable(s, share, actual) then s
    else Close(s, i, if AnyNonzero(actual) then Committed else Credited, actual, now)
  }

  /** Reclaim a share long past its deadline without charging it. */
  function Expire(s: Counters, i: nat, now: real): Counters
    requires i < |s.shares| && ValidShare(s.shares[i])
  {
    if !s.shares[i].state.Reserved? then s else Close(s, i, ReservationExpired, map[], now)
  }

  datatype Action =
    | ReserveShare(share: Share, now: real, trusted: set<string>)
    | FinishShare(index: nat, actual: map<UsageUnit, int>, now: real)
    | ExpireShare(index: nat, now: real)

  predicate ValidShares(shares: seq<Share>) {
    forall i :: 0 <= i < |shares| ==> ValidShare(shares[i])
  }

  /** A request whose windows and scopes are configured with at most these limits. */
  predicate UnderLimits(share: Share, limits: map<string, int>, now: real) {
    && ValidShare(share)
    && (forall i :: 0 <= i < |share.quotas| ==>
          && ValidQuota(share.quotas[i], now)
          && share.quotas[i].key in limits && share.quotas[i].limit <= limits[share.quotas[i].key])
    && forall i :: 0 <= i < |share.scopes| ==>
         share.scopes[i].key in limits && share.scopes[i].limit <= limits[share.scopes[i].key]
  }

  /** Every request of a run is made under these limits; configurations may differ from request to request. */
  predicate AllUnderLimits(limits: map<string, int>, actions: seq<Action>) {
    forall i :: 0 <= i < |actions| && actions[i].ReserveShare? ==> UnderLimits(actions[i].share, limits, actions[i].now)
  }

  predicate ValidAction(a: Action) {
    a.ReserveShare? ==> ValidShare(a.share)
  }

  function Act(s: Counters, a: Action): (after: Counters)
    requires ValidShares(s.shares) && ValidAction(a)
    ensures ValidShares(after.shares)
  {
    match a
    case ReserveShare(share, now, trusted) => Reserve(s, share, now, trusted)
    case FinishShare(index, actual, now) => if index < |s.shares| then Finish(s, index, actual, now) else s
    case ExpireShare(index, now) => if index < |s.shares| then Expire(s, index, now) else s
  }

  function Run(s: Counters, actions: seq<Action>): (after: Counters)
    requires ValidShares(s.shares) && forall i :: 0 <= i < |actions| ==> ValidAction(actions[i])
    ensures ValidShares(after.shares)
    decreases |actions|
  {
    if actions == [] then s else Run(Act(s, actions[0]), actions[1..])
  }

  // ----- What the counters should say -----

  /** The amount a list of quotas takes from one window. */
  function AmountOf(quotas: seq<QuotaSpec>, key: string): int {
    if quotas == [] then 0
    else
      AmountOf(quotas[..|quotas| - 1], key)
      + if quotas[|quotas| - 1].key == key then quotas[|quotas| - 1].amount else 0
  }

  function ConsumedOf(quotas: seq<QuotaSpec>, actual: map<UsageUnit, int>, key: string): int {
    if quotas == [] then 0
    else
      var q := quotas[|quotas| - 1];
      ConsumedOf(quotas[..|quotas| - 1], actual, key)
      + if q.key == key && q.unit in actual then actual[q.unit] else 0
  }

  function HeldBy(share: Share, key: string): int {
    if share.state.Reserved? then AmountOf(share.quotas, key) else 0
  }

  function ConsumedBy(share: Share, key: string): int {
    ConsumedOf(share.quotas, share.actual, key)
  }

  function TotalHeld(shares: seq<Share>, key: string): int {
    if shares == [] then 0 else TotalHeld(shares[..|shares| - 1], key) + HeldBy(shares[|shares| - 1], key)
  }

  function TotalConsumed(shares: seq<Share>, key: string): int {
    if shares == [] then 0 else TotalConsumed(shares[..|shares| - 1], key) + ConsumedBy(shares[|shares| - 1], key)
  }

  predicate HasScope(share: Share, scope: string) {
    exists i :: 0 <= i < |share.scopes| && share.scopes[i].key == scope
  }

  function Holders(shares: seq<Share>, scope: string): set<string> {
    set i | 0 <= i < |shares| && shares[i].state.Reserved? && HasScope(shares[i], scope) :: shares[i].id
  }

  predicate DistinctShares(shares: seq<Share>) {
    forall i, j :: 0 <= i < j < |shares| ==> shares[i].id != shares[j].id
  }

  /** Held counters are the open reservations, and used counters cover everything consumed. */
  ghost predicate WindowsAgree(windows: map<string, Window>, shares: seq<Share>) {
    forall key ::
      && WindowAt(windows, key).held == TotalHeld(shares, key)
      && 0 <= TotalConsumed(shares, key) <= WindowAt(windows, key).used
  }

  ghost predicate ScopesAgree(members: map<string, set<string>>, shares: seq<Share>) {
    forall scope :: MembersOf(members, scope) == Holders(shares, scope)
  }

  predicate WithinLimits(windows: map<string, Window>, limits: map<string, int>) {
    forall key :: key in windows ==> key in limits && windows[key].used + windows[key].held <= limits[key]
  }

  predicate ScopesWithinLimits(members: map<string, set<string>>, limits: map<string, int>) {
    forall scope :: scope in members ==> scope in limits && |members[scope]| <= limits[scope]
  }

  /** A bucket never holds more than the burst it was last written under. */
  predicate BucketsWithinCaps(buckets: map<string, Bucket>, caps: map<string, int>) {
    forall rate :: rate in buckets ==> rate in caps && 0.0 <= buckets[rate].tokens <= caps[rate] as real
  }

  /** An open reservation has consumed nothing yet, and its buckets exist. */
  predicate OpenSharesOk(shares: seq<Share>, buckets: map<string, Bucket>) {
    forall i :: 0 <= i < |shares| && shares[i].state.Reserved? ==>
      && shares[i].actual == map[]
      && forall k :: 0 <= k < |shares[i].quotas| ==> shares[i].quotas[k].rate in buckets
  }

  ghost predicate Inv(s: Counters, limits: map<string, int>) {
    && ValidShares(s.shares) && DistinctShares(s.shares)
    && BucketsWithinCaps(s.buckets, s.caps) && OpenSharesOk(s.shares, s.buckets)
    && WindowsAgree(s.windows, s.shares) && ScopesAgree(s.members, s.shares)
    && WithinLimits(s.windows, limits) && ScopesWithinLimits(s.members, limits)
  }

  // ----- Windows -----

  lemma {:induction false} AmountNonnegative(quotas: seq<QuotaSpec>, key: string)
    requires forall i :: 0 <= i < |quotas| ==> quotas[i].amount > 0
    ensures AmountOf(quotas, key) >= 0
    ensures (forall i :: 0 <= i < |quotas| ==> quotas[i].key != key) ==> AmountOf(quotas, key) == 0
    ensures forall i :: 0 <= i < |quotas| && quotas[i].key == key ==> AmountOf(quotas, key) >= quotas[i].amount
    ensures AmountOf(quotas, key) > 0 ==> exists i :: 0 <= i < |quotas| && quotas[i].key == key
  {
    if quotas != [] {
      AmountNonnegative(quotas[..|quotas| - 1], key);
      if AmountOf(quotas[..|quotas| - 1], key) > 0 {
        var i :| 0 <= i < |quotas| - 1 && quotas[..|quotas| - 1][i].key == key;
        assert quotas[i].key == key;
      }
    }
  }

  lemma {:induction false} TakingWindows(windows: map<string, Window>, quotas: seq<QuotaSpec>, key: string)
    requires DistinctQuotas(quotas)
    ensures var after := WindowAt(TakeWindows(windows, quotas), key); var before := WindowAt(windows, key);
      && after.held == before.held + AmountOf(quotas, key)
      && after.used >= before.used
      && ((forall i :: 0 <= i < |quotas| ==> quotas[i].key != key) ==> after == before)
      && (forall i :: 0 <= i < |quotas| && quotas[i].key == key ==>
            after == Window(Max(before.used, quotas[i].baseline), before.held + quotas[i].amount))
    ensures key in TakeWindows(windows, quotas) <==>
      key in windows || exists i :: 0 <= i < |quotas| && quotas[i].key == key
  {
    if quotas != [] {
      var shorter := quotas[..|quotas| - 1];
      TakingWindows(windows, shorter, key);
      assert forall i :: 0 <= i < |shorter| ==> shorter[i] == quotas[i];
    }
  }

  lemma {:induction false} ConsumedWithinAmount(
    share: Share, quotas: seq<QuotaSpec>, actual: map<UsageUnit, int>, key: string)
    requires Settles(share, actual) || actual == map[]
    requires forall i :: 0 <= i < |quotas| ==>
      quotas[i].unit in share.estimates && quotas[i].amount == share.estimates[quotas[i].unit] && quotas[i].amount > 0
    ensures 0 <= ConsumedOf(quotas, actual, key) <= AmountOf(quotas, key)
    ensures actual == map[] ==> ConsumedOf(quotas, actual, key) == 0
  {
    if quotas != [] { ConsumedWithinAmount(share, quotas[..|quotas| - 1], actual, key); }
  }

  lemma {:induction false} ClosingWindows(
    windows: map<string, Window>, quotas: seq<QuotaSpec>, actual: map<UsageUnit, int>, key: string)
    requires DistinctQuotas(quotas) && forall i :: 0 <= i < |quotas| ==> quotas[i].amount > 0
    requires forall i :: 0 <= i < |quotas| ==> WindowAt(windows, quotas[i].key).held >= quotas[i].amount
    ensures var after := WindowAt(CloseWindows(windows, quotas, actual), key); var before := WindowAt(windows, key);
      && after.held == before.held - AmountOf(quotas, key)
      && after.used == before.used + ConsumedOf(quotas, actual, key)
      && ((forall i :: 0 <= i < |quotas| ==> quotas[i].key != key) ==> after == before)
    ensures key in CloseWindows(windows, quotas, actual) <==> key in windows
  {
    if quotas != [] {
      var shorter := quotas[..|quotas| - 1];
      var last := quotas[|quotas| - 1];
      assert forall i :: 0 <= i < |shorter| ==> shorter[i] == quotas[i];
      ClosingWindows(windows, shorter, actual, key);
      ClosingWindows(windows, shorter, actual, last.key);
    }
  }

  // ----- Scopes -----

  lemma {:induction false} Joining(members: map<string, set<string>>, scopes: seq<ScopeSpec>, id: string, scope: string)
    ensures MembersOf(Join(members, scopes, id), scope)
      == MembersOf(members, scope) + (if exists i :: 0 <= i < |scopes| && scopes[i].key == scope then {id} else {})
    ensures scope in Join(members, scopes, id) <==>
      scope in members || exists i :: 0 <= i < |scopes| && scopes[i].key == scope
  {
    if scopes != [] {
      var shorter := scopes[..|scopes| - 1];
      Joining(members, shorter, id, scope);
      assert forall i :: 0 <= i < |shorter| ==> shorter[i] == scopes[i];
    }
  }

  lemma {:induction false} Leaving(members: map<string, set<string>>, scopes: seq<ScopeSpec>, id: string, scope: string)
    ensures MembersOf(Leave(members, scopes, id), scope)
      == MembersOf(members, scope) - (if exists i :: 0 <= i < |scopes| && scopes[i].key == scope then {id} else {})
    ensures scope in Leave(members, scopes, id) <==>
      scope in members || exists i :: 0 <= i < |scopes| && scopes[i].key == scope
  {
    if scopes != [] {
      var shorter := scopes[..|scopes| - 1];
      Leaving(members, shorter, id, scope);
      assert forall i :: 0 <= i < |shorter| ==> shorter[i] == scopes[i];
    }
  }

  // ----- Totals -----

  lemma {:induction false} ReplaceInTotals(shares: seq<Share>, i: nat, after: Share, key: string)
    requires i < |shares|
    ensures TotalHeld(shares[i := after], key) == TotalHeld(shares, key) - HeldBy(shares[i], key) + HeldBy(after, key)
    ensures TotalConsumed(shares[i := after], key)
      == TotalConsumed(shares, key) - ConsumedBy(shares[i], key) + ConsumedBy(after, key)
    decreases |shares|
  {
    var last := |shares| - 1;
    var updated := shares[i := after];
    if i == last {
      assert updated[..last] == shares[..last];
    } else {
      ReplaceInTotals(shares[..last], i, after, key);
      assert updated[..last] == shares[..last][i := after];
    }
  }

  lemma {:induction false} HeldIsPartOfTotal(shares: seq<Share>, i: nat, key: string)
    requires ValidShares(shares) && i < |shares|
    ensures 0 <= HeldBy(shares[i], key) <= TotalHeld(shares, key)
    decreases |shares|
  {
    var last := |shares| - 1;
    AmountNonnegative(shares[last].quotas, key);
    if i < last {
      HeldIsPartOfTotal(shares[..last], i, key);
    } else if last > 0 {
      HeldIsPartOfTotal(shares[..last], 0, key);
    }
  }

  // ----- Admission -----

  lemma PositiveWait(x: real, seconds: int, limit: int)
    requires x > 0.0 && seconds > 0 && limit > 0
    ensures Wait(x, seconds, limit) > 0.0
  {
    assert x * seconds as real > 0.0;
  }

  predicate QuotaFits(s: Counters, q: QuotaSpec, now: real)
    requires q.seconds > 0
  {
    && Max(WindowAt(s.windows, q.key).used, q.baseline) + WindowAt(s.windows, q.key).held + q.amount <= q.limit
    && Refilled(q, BucketAt(s, q, now), now) >= q.amount as real
  }

  lemma QuotaRetryExactly(s: Counters, q: QuotaSpec, now: real)
    requires ValidQuota(q, now)
    ensures QuotaRetry(s, q, now) > now <==> !QuotaFits(s, q, now)
    ensures QuotaRetry(s, q, now) >= now
  {
    hide Refilled, Wait, BucketAt, WindowAt;
    var tokens := Refilled(q, BucketAt(s, q, now), now);
    if tokens < q.amount as real { PositiveWait(q.amount as real - tokens, q.seconds, q.limit); }
    assert q.ends as real > now;
  }

  lemma {:induction false} RetryExactly(s: Counters, share: Share, now: real, n: nat)
    requires n <= |share.quotas| && ValidShare(share)
    requires forall i :: 0 <= i < |share.quotas| ==> ValidQuota(share.quotas[i], now)
    ensures Retry(s, share, now, n) > now <==> exists i :: 0 <= i < n && !QuotaFits(s, share.quotas[i], now)
    ensures Retry(s, share, now, n) >= now
  {
    hide QuotaFits, QuotaRetry;
    if n > 0 {
      RetryExactly(s, share, now, n - 1);
      QuotaRetryExactly(s, share.quotas[n - 1], now);
    }
  }

  /**
   * A reservation is admitted exactly when its counters can be judged, every window and bucket has room
   * for it, and every concurrency scope has a free place; a postponed one gets a strictly later time.
   */
  lemma AdmittedExactlyWhenItFits(s: Counters, share: Share, now: real, trusted: set<string>)
    requires ValidShare(share) && forall i :: 0 <= i < |share.quotas| ==> ValidQuota(share.quotas[i], now)
    ensures Judge(s, share, now, trusted).Admitted? <==>
      && FirstProblem(s, share, trusted, |share.quotas|).None?
      && (forall i :: 0 <= i < |share.quotas| ==> QuotaFits(s, share.quotas[i], now))
      && (forall i :: 0 <= i < |share.scopes| ==> !ScopeFull(s, share.scopes[i]))
    ensures Judge(s, share, now, trusted).Waiting? ==> Judge(s, share, now, trusted).retry > now
  {
    hide QuotaFits, Retry, ScopeFull, Problem;
    RetryExactly(s, share, now, |share.quotas|);
    ProblemsAreRefusals(s, share, trusted, |share.quotas|);
  }

  lemma {:induction false} ProblemsAreRefusals(s: Counters, share: Share, trusted: set<string>, n: nat)
    requires n <= |share.quotas| && |share.scopes| == |share.quotas| + 1
    ensures var problem := FirstProblem(s, share, trusted, n);
      problem.Some? ==> problem.value.NeverFits? || problem.value.Unavailable?
  {
    if n > 0 { ProblemsAreRefusals(s, share, trusted, n - 1); }
  }

  // ----- Reserving keeps every counter exact -----

  lemma AppendTotals(shares: seq<Share>, share: Share, key: string)
    ensures TotalHeld(shares + [share], key) == TotalHeld(shares, key) + HeldBy(share, key)
    ensures TotalConsumed(shares + [share], key) == TotalConsumed(shares, key) + ConsumedBy(share, key)
  {
    assert (shares + [share])[..|shares|] == shares;
  }

  lemma {:induction false} NothingConsumed(quotas: seq<QuotaSpec>, key: string)
    ensures ConsumedOf(quotas, map[], key) == 0
  {
    if quotas != [] { NothingConsumed(quotas[..|quotas| - 1], key); }
  }

  lemma ReservingWindows(s: Counters, limits: map<string, int>, share: Share, now: real)
    requires Inv(s, limits) && UnderLimits(share, limits, now)
    requires forall i :: 0 <= i < |share.quotas| ==> QuotaFits(s, share.quotas[i], now)
    ensures var windows := TakeWindows(s.windows, share.quotas);
      var begun := share.(state := Reserved, actual := map[]);
      WindowsAgree(windows, s.shares + [begun]) && WithinLimits(windows, limits)
  {
    hide Refilled, BucketAt, ScopesAgree, ScopesWithinLimits, BucketsWithinCaps, OpenSharesOk, DistinctShares;
    var windows := TakeWindows(s.windows, share.quotas);
    var begun := share.(state := Reserved, actual := map[]);
    forall key
      ensures WindowAt(windows, key).held == TotalHeld(s.shares + [begun], key)
      ensures 0 <= TotalConsumed(s.shares + [begun], key) <= WindowAt(windows, key).used
    {
      TakingWindows(s.windows, share.quotas, key);
      AppendTotals(s.shares, begun, key);
      NothingConsumed(share.quotas, key);
    }
    forall key | key in windows ensures key in limits && windows[key].used + windows[key].held <= limits[key] {
      TakingWindows(s.windows, share.quotas, key);
      if i :| 0 <= i < |share.quotas| && share.quotas[i].key == key {
        assert QuotaFits(s, share.quotas[i], now);
      }
    }
  }

  lemma HoldersGrow(shares: seq<Share>, share: Share, scope: string)
    requires share.state.Reserved?
    ensures Holders(shares + [share], scope)
      == Holders(shares, scope) + (if HasScope(share, scope) then {share.id} else {})
  {
    var longer := shares + [share];
    forall id | id in Holders(shares, scope) ensures id in Holders(longer, scope) {
      var i :| 0 <= i < |shares| && shares[i].state.Reserved? && HasScope(shares[i], scope) && shares[i].id == id;
      assert longer[i] == shares[i];
    }
    assert longer[|shares|] == share;
  }

  lemma ReservingScopes(s: Counters, limits: map<string, int>, share: Share, now: real)
    requires Inv(s, limits) && UnderLimits(share, limits, now)
    requires forall i :: 0 <= i < |share.scopes| ==> !ScopeFull(s, share.scopes[i])
    ensures var members := Join(s.members, share.scopes, share.id);
      && ScopesAgree(members, s.shares + [share.(state := Reserved, actual := map[])])
      && ScopesWithinLimits(members, limits)
  {
    hide WindowsAgree, WithinLimits, BucketsWithinCaps, OpenSharesOk, DistinctShares, ValidQuota, ValidShare, Join;
    hide Holders;
    var members := Join(s.members, share.scopes, share.id);
    var begun := share.(state := Reserved, actual := map[]);
    forall scope ensures MembersOf(members, scope) == Holders(s.shares + [begun], scope) {
      Joining(s.members, share.scopes, share.id, scope);
      HoldersGrow(s.shares, begun, scope);
    }
    forall scope | scope in members ensures scope in limits && |members[scope]| <= limits[scope] {
      Joining(s.members, share.scopes, share.id, scope);
      if i :| 0 <= i < |share.scopes| && share.scopes[i].key == scope {
        assert !ScopeFull(s, share.scopes[i]);
        assert members[scope] == MembersOf(s.members, scope) + {share.id};
      } else {
        assert members[scope] == MembersOf(s.members, scope);
      }
    }
  }

  lemma {:induction false} TakingTokens(s: Counters, quotas: seq<QuotaSpec>, now: real)
    requires BucketsWithinCaps(s.buckets, s.caps)
    requires forall i :: 0 <= i < |quotas| ==>
      && quotas[i].seconds > 0 && quotas[i].amount > 0
      && Refilled(quotas[i], BucketAt(s, quotas[i], now), now) >= quotas[i].amount as real
    ensures BucketsWithinCaps(TakeTokens(s, quotas, now), WriteCaps(s.caps, quotas))
    ensures forall rate :: rate in s.buckets ==> rate in TakeTokens(s, quotas, now)
    ensures forall i :: 0 <= i < |quotas| ==> quotas[i].rate in TakeTokens(s, quotas, now)
  {
    if quotas != [] {
      hide Refilled, BucketAt;
      var q := quotas[|quotas| - 1];
      TakingTokens(s, quotas[..|quotas| - 1], now);
      RefillIsCapped(q, BucketAt(s, q, now), now);
      assert forall i :: 0 <= i < |quotas| - 1 ==> quotas[..|quotas| - 1][i] == quotas[i];
    }
  }

  lemma RefillIsCapped(q: QuotaSpec, bucket: Bucket, now: real)
    requires q.seconds > 0
    ensures Refilled(q, bucket, now) <= q.burst as real
  {
  }

  lemma ReservingBuckets(s: Counters, limits: map<string, int>, share: Share, now: real)
    requires Inv(s, limits) && UnderLimits(share, limits, now)
    requires forall i :: 0 <= i < |share.quotas| ==> QuotaFits(s, share.quotas[i], now)
    ensures var buckets := TakeTokens(s, share.quotas, now);
      BucketsWithinCaps(buckets, WriteCaps(s.caps, share.quotas))
      && OpenSharesOk(s.shares + [share.(state := Reserved, actual := map[])], buckets)
  {
    hide WindowsAgree, WithinLimits, ScopesAgree, ScopesWithinLimits, DistinctShares, Refilled, BucketAt;
    hide BucketsWithinCaps;
    TakingTokens(s, share.quotas, now);
  }

  lemma ReserveKeeps(s: Counters, limits: map<string, int>, share: Share, now: real, trusted: set<string>)
    requires Inv(s, limits) && UnderLimits(share, limits, now)
    ensures Inv(Reserve(s, share, now, trusted), limits)
  {
    hide WindowsAgree, WithinLimits, ScopesAgree, ScopesWithinLimits, BucketsWithinCaps, OpenSharesOk, Judge;
    hide ValidQuota, QuotaFits, ScopeFull;
    if !KnownId(s.shares, share.id) && Judge(s, share, now, trusted).Admitted? {
      AdmittedExactlyWhenItFits(s, share, now, trusted);
      ReservingWindows(s, limits, share, now);
      ReservingScopes(s, limits, share, now);
      ReservingBuckets(s, limits, share, now);
    }
  }

  // ----- Closing keeps every counter exact -----

  lemma ClosingHeldWindows(s: Counters, limits: map<string, int>, i: nat)
    requires Inv(s, limits) && i < |s.shares| && s.shares[i].state.Reserved?
    ensures forall k :: 0 <= k < |s.shares[i].quotas| ==>
      && s.shares[i].quotas[k].key in s.windows
      && WindowAt(s.windows, s.shares[i].quotas[k].key).held >= s.shares[i].quotas[k].amount
      && WindowAt(s.windows, s.shares[i].quotas[k].key).used >= 0
  {
    hide WithinLimits, ScopesAgree, ScopesWithinLimits, BucketsWithinCaps, OpenSharesOk, DistinctShares;
    var quotas := s.shares[i].quotas;
    forall k | 0 <= k < |quotas|
      ensures quotas[k].key in s.windows && WindowAt(s.windows, quotas[k].key).held >= quotas[k].amount
      ensures WindowAt(s.windows, quotas[k].key).used >= 0
    {
      HeldIsPartOfTotal(s.shares, i, quotas[k].key);
      AmountNonnegative(quotas, quotas[k].key);
      assert WindowAt(s.windows, quotas[k].key).held == TotalHeld(s.shares, quotas[k].key);
    }
  }

  lemma ClosingKeepsWindows(
    s: Counters, limits: map<string, int>, i: nat, state: ReservationState, actual: map<UsageUnit, int>)
    requires Inv(s, limits) && i < |s.shares| && s.shares[i].state.Reserved? && !state.Reserved?
    requires Settles(s.shares[i], actual) || actual == map[]
    ensures var windows := CloseWindows(s.windows, s.shares[i].quotas, actual);
      && WindowsAgree(windows, s.shares[i := s.shares[i].(state := state, actual := actual)])
      && WithinLimits(windows, limits)
  {
    hide ScopesAgree, ScopesWithinLimits, BucketsWithinCaps, DistinctShares, Settles;
    var share := s.shares[i];
    var closed := share.(state := state, actual := actual);
    var windows := CloseWindows(s.windows, share.quotas, actual);
    ClosingHeldWindows(s, limits, i);
    forall key
      ensures WindowAt(windows, key).held == TotalHeld(s.shares[i := closed], key)
      ensures 0 <= TotalConsumed(s.shares[i := closed], key) <= WindowAt(windows, key).used
      ensures key in windows ==> key in limits && windows[key].used + windows[key].held <= limits[key]
    {
      ClosingWindows(s.windows, share.quotas, actual, key);
      ReplaceInTotals(s.shares, i, closed, key);
      ConsumedWithinAmount(share, share.quotas, actual, key);
      NothingConsumed(share.quotas, key);
    }
  }

  lemma HoldersShrink(shares: seq<Share>, i: nat, closed: Share, scope: string)
    requires DistinctShares(shares) && i < |shares| && shares[i].state.Reserved? && !closed.state.Reserved?
    requires closed.id == shares[i].id
    ensures Holders(shares[i := closed], scope)
      == Holders(shares, scope) - (if HasScope(shares[i], scope) then {shares[i].id} else {})
  {
    var updated := shares[i := closed];
    forall id | id in Holders(shares, scope) && id != shares[i].id ensures id in Holders(updated, scope) {
      var k :| 0 <= k < |shares| && shares[k].state.Reserved? && HasScope(shares[k], scope) && shares[k].id == id;
      assert updated[k] == shares[k];
    }
    forall id | id in Holders(updated, scope) ensures id in Holders(shares, scope) && id != shares[i].id {
      var k :| 0 <= k < |updated| && updated[k].state.Reserved? && HasScope(updated[k], scope) && updated[k].id == id;
      assert k != i && shares[k] == updated[k];
    }
    if shares[i].id in Holders(shares, scope) { HolderHasScope(shares, i, scope); }
  }

  lemma HolderHasScope(shares: seq<Share>, i: nat, scope: string)
    requires DistinctShares(shares) && i < |shares| && shares[i].id in Holders(shares, scope)
    ensures HasScope(shares[i], scope)
  {
    var k :| 0 <= k < |shares| && shares[k].state.Reserved? && HasScope(shares[k], scope)
      && shares[k].id == shares[i].id;
  }

  lemma ClosingKeepsScopes(s: Counters, limits: map<string, int>, i: nat, closed: Share)
    requires Inv(s, limits) && i < |s.shares| && s.shares[i].state.Reserved? && !closed.state.Reserved?
    requires closed.id == s.shares[i].id
    requires forall k :: 0 <= k < |s.shares[i].scopes| ==> s.shares[i].scopes[k].key in s.members
    ensures var members := Leave(s.members, s.shares[i].scopes, s.shares[i].id);
      ScopesAgree(members, s.shares[i := closed]) && ScopesWithinLimits(members, limits)
  {
    hide WindowsAgree, WithinLimits, BucketsWithinCaps, OpenSharesOk, ValidShare;
    var share := s.shares[i];
    var members := Leave(s.members, share.scopes, share.id);
    forall scope ensures MembersOf(members, scope) == Holders(s.shares[i := closed], scope) {
      Leaving(s.members, share.scopes, share.id, scope);
      HoldersShrink(s.shares, i, closed, scope);
    }
    forall scope | scope in members ensures scope in limits && |members[scope]| <= limits[scope] {
      Leaving(s.members, share.scopes, share.id, scope);
      assert members[scope] <= s.members[scope];
      SubsetSize(members[scope], s.members[scope]);
    }
  }

  lemma {:induction false} SubsetSize(a: set<string>, b: set<string>)
    requires a <= b
    ensures |a| <= |b|
  {
    assert b == a + (b - a);
  }

  lemma OpenShareIsMember(s: Counters, limits: map<string, int>, i: nat)
    requires Inv(s, limits) && i < |s.shares| && s.shares[i].state.Reserved?
    ensures forall k :: 0 <= k < |s.shares[i].scopes| ==>
      s.shares[i].scopes[k].key in s.members && s.shares[i].id in MembersOf(s.members, s.shares[i].scopes[k].key)
  {
    hide WindowsAgree, WithinLimits, BucketsWithinCaps, OpenSharesOk, ScopesWithinLimits, DistinctShares;
    forall k | 0 <= k < |s.shares[i].scopes|
      ensures s.shares[i].scopes[k].key in s.members
      ensures s.shares[i].id in MembersOf(s.members, s.shares[i].scopes[k].key)
    {
      var scope := s.shares[i].scopes[k].key;
      assert HasScope(s.shares[i], scope);
      assert s.shares[i].id in Holders(s.shares, scope);
    }
  }

  lemma GainIsNonnegative(q: QuotaSpec, bucket: Bucket, now: real)
    requires q.seconds > 0 && q.limit > 0
    ensures Gained(q, bucket, now) >= 0.0
  {
    Product(MaxReal(0.0, now - bucket.at), q.limit as real);
  }

  lemma Product(a: real, b: real)
    requires a >= 0.0 && b >= 0.0
    ensures a * b >= 0.0
  {
  }

  lemma {:induction false} RefundingTokens(
    s: Counters, share: Share, quotas: seq<QuotaSpec>, actual: map<UsageUnit, int>, now: real)
    requires BucketsWithinCaps(s.buckets, s.caps) && (Settles(share, actual) || actual == map[])
    requires forall i :: 0 <= i < |quotas| ==>
      && quotas[i].seconds > 0 && quotas[i].limit > 0 && quotas[i].amount > 0 && quotas[i].burst > 0
      && quotas[i].unit in share.estimates && quotas[i].amount == share.estimates[quotas[i].unit]
      && quotas[i].rate in s.buckets
    ensures BucketsWithinCaps(Refund(s, quotas, actual, now), WriteCaps(s.caps, quotas))
    ensures forall rate :: rate in s.buckets ==> rate in Refund(s, quotas, actual, now)
  {
    if quotas != [] {
      hide Gained;
      var q := quotas[|quotas| - 1];
      RefundingTokens(s, share, quotas[..|quotas| - 1], actual, now);
      GainIsNonnegative(q, BucketAt(s, q, now), now);
    }
  }

  lemma ClosingKeepsBuckets(
    s: Counters, limits: map<string, int>, i: nat, state: ReservationState, actual: map<UsageUnit, int>, now: real)
    requires Inv(s, limits) && i < |s.shares| && s.shares[i].state.Reserved? && !state.Reserved?
    requires Settles(s.shares[i], actual) || actual == map[]
    ensures var buckets := Refund(s, s.shares[i].quotas, actual, now);
      BucketsWithinCaps(buckets, WriteCaps(s.caps, s.shares[i].quotas))
      && OpenSharesOk(s.shares[i := s.shares[i].(state := state, actual := actual)], buckets)
  {
    hide WindowsAgree, WithinLimits, ScopesAgree, ScopesWithinLimits, DistinctShares, Settles, BucketsWithinCaps;
    RefundingTokens(s, s.shares[i], s.shares[i].quotas, actual, now);
  }

  lemma CloseKeeps(
    s: Counters, limits: map<string, int>, i: nat, state: ReservationState, actual: map<UsageUnit, int>, now: real)
    requires Inv(s, limits) && i < |s.shares| && s.shares[i].state.Reserved? && !state.Reserved?
    requires Settles(s.shares[i], actual) || actual == map[]
    ensures Inv(Close(s, i, state, actual, now), limits)
  {
    hide WindowsAgree, WithinLimits, ScopesAgree, ScopesWithinLimits, BucketsWithinCaps, OpenSharesOk, Settles;
    OpenShareIsMember(s, limits, i);
    ClosingKeepsWindows(s, limits, i, state, actual);
    ClosingKeepsScopes(s, limits, i, s.shares[i].(state := state, actual := actual));
    ClosingKeepsBuckets(s, limits, i, state, actual, now);
  }

  lemma ActKeeps(s: Counters, limits: map<string, int>, a: Action)
    requires Inv(s, limits) && (a.ReserveShare? ==> UnderLimits(a.share, limits, a.now))
    ensures ValidAction(a) && Inv(Act(s, a), limits)
  {
    hide Inv, Reserve, Close, Settles, Verified, Countable, ValidShare, ValidQuota;
    SharesHere(s, limits);
    match a {
      case ReserveShare(share, now, trusted) => ReserveKeeps(s, limits, share, now, trusted);
      case FinishShare(index, actual, now) =>
        if index < |s.shares| && s.shares[index].state.Reserved? && Settles(s.shares[index], actual) {
          CloseKeeps(s, limits, index, Committed, actual, now);
          CloseKeeps(s, limits, index, Credited, actual, now);
        }
      case ExpireShare(index, now) =>
        if index < |s.shares| && s.shares[index].state.Reserved? {
          CloseKeeps(s, limits, index, ReservationExpired, map[], now);
        }
    }
  }

  lemma SharesHere(s: Counters, limits: map<string, int>)
    requires Inv(s, limits)
    ensures ValidShares(s.shares)
  {
  }

  lemma LimitedActionsAreValid(limits: map<string, int>, actions: seq<Action>)
    requires AllUnderLimits(limits, actions)
    ensures forall i :: 0 <= i < |actions| ==> ValidAction(actions[i])
  {
    hide ValidShare, ValidQuota;
    forall i | 0 <= i < |actions| ensures ValidAction(actions[i]) {
      if actions[i].ReserveShare? { assert UnderLimits(actions[i].share, limits, actions[i].now); }
    }
  }

  lemma {:induction false} RunKeeps(s: Counters, limits: map<string, int>, actions: seq<Action>)
    requires Inv(s, limits) && AllUnderLimits(limits, actions)
    ensures ValidShares(s.shares) && forall i :: 0 <= i < |actions| ==> ValidAction(actions[i])
    ensures Inv(Run(s, actions), limits)
    decreases |actions|
  {
    hide Inv, Act, UnderLimits, ValidAction;
    SharesHere(s, limits);
    LimitedActionsAreValid(limits, actions);
    if actions != [] {
      ActKeeps(s, limits, actions[0]);
      RunKeeps(Act(s, actions[0]), limits, actions[1..]);
    }
  }

  lemma NoCountersHold(limits: map<string, int>)
    ensures Inv(NO_COUNTERS, limits)
  {
  }

  /** The counters after a run of requests under the given limits, settlements and reclaims. */
  function After(limits: map<string, int>, actions: seq<Action>): Counters
    requires AllUnderLimits(limits, actions)
  {
    LimitedActionsAreValid(limits, actions);
    Run(NO_COUNTERS, actions)
  }

  lemma AfterHolds(limits: map<string, int>, actions: seq<Action>)
    requires AllUnderLimits(limits, actions)
    ensures Inv(After(limits, actions), limits)
  {
    NoCountersHold(limits);
    RunKeeps(NO_COUNTERS, limits, actions);
  }

  // ----- What holds of every run -----

  /**
   * Every held counter is exactly the sum of the open reservations, and no window ever lets open and
   * consumed requests together exceed the largest limit it was requested under.
   */
  lemma QuotaIsNeverExceeded(limits: map<string, int>, actions: seq<Action>, key: string)
    requires AllUnderLimits(limits, actions)
    ensures var s := After(limits, actions);
      && WindowAt(s.windows, key).held == TotalHeld(s.shares, key)
      && 0 <= TotalConsumed(s.shares, key)
      && (key in s.windows ==>
            key in limits && TotalConsumed(s.shares, key) + TotalHeld(s.shares, key) <= limits[key])
  {
    AfterHolds(limits, actions);
    var s := After(limits, actions);
    assert WindowAt(s.windows, key).held == TotalHeld(s.shares, key);
  }

  /** A concurrency scope holds exactly the open reservations that list it, never more than its largest limit. */
  lemma ConcurrencyIsNeverExceeded(limits: map<string, int>, actions: seq<Action>, scope: string)
    requires AllUnderLimits(limits, actions)
    ensures var s := After(limits, actions);
      && MembersOf(s.members, scope) == Holders(s.shares, scope)
      && (scope in s.members ==> scope in limits && |Holders(s.shares, scope)| <= limits[scope])
  {
    AfterHolds(limits, actions);
    var s := After(limits, actions);
    assert MembersOf(s.members, scope) == Holders(s.shares, scope);
  }

  // ----- When an open reservation can be settled -----

  /** Every bucket of the share holds at most the burst the share was made under. */
  predicate WithinOwnBurst(s: Counters, share: Share) {
    forall k :: 0 <= k < |share.quotas| ==>
      share.quotas[k].rate in s.buckets && s.buckets[share.quotas[k].rate].tokens <= share.quotas[k].burst as real
  }

  /**
   * While counters are kept, ownership of an open reservation verifies exactly when none of its buckets
   * holds more tokens than the burst it was made under; windows and scopes never stand in the way.
   */
  lemma OpenReservationVerifiesExactly(limits: map<string, int>, actions: seq<Action>, i: nat)
    requires AllUnderLimits(limits, actions)
    requires i < |After(limits, actions).shares| && After(limits, actions).shares[i].state.Reserved?
    ensures var s := After(limits, actions); Verified(s, s.shares[i]) <==> WithinOwnBurst(s, s.shares[i])
  {
    hide WindowsAgree, WithinLimits, ScopesAgree, ScopesWithinLimits, DistinctShares, After;
    AfterHolds(limits, actions);
    var s := After(limits, actions);
    OpenShareIsMember(s, limits, i);
    ClosingHeldWindows(s, limits, i);
  }

  /**
   * Checked before settling: if each of its buckets was last written under no larger burst than its own,
   * an open reservation verifies.
   */
  lemma UnraisedBurstVerifies(limits: map<string, int>, actions: seq<Action>, i: nat)
    requires AllUnderLimits(limits, actions)
    requires i < |After(limits, actions).shares| && After(limits, actions).shares[i].state.Reserved?
    requires var s := After(limits, actions);
      forall k :: 0 <= k < |s.shares[i].quotas| ==>
        s.shares[i].quotas[k].rate in s.caps && s.caps[s.shares[i].quotas[k].rate] <= s.shares[i].quotas[k].burst
    ensures Verified(After(limits, actions), After(limits, actions).shares[i])
  {
    hide WindowsAgree, WithinLimits, ScopesAgree, ScopesWithinLimits, DistinctShares, After, Verified;
    AfterHolds(limits, actions);
    OpenReservationVerifiesExactly(limits, actions, i);
  }

  lemma {:induction false} WrittenCaps(caps: map<string, int>, quotas: seq<QuotaSpec>, rate: string)
    ensures rate in WriteCaps(caps, quotas) ==>
      || (rate in caps && WriteCaps(caps, quotas)[rate] == caps[rate])
      || exists k :: 0 <= k < |quotas| && quotas[k].rate == rate && quotas[k].burst == WriteCaps(caps, quotas)[rate]
  {
    if quotas != [] {
      var shorter := quotas[..|quotas| - 1];
      WrittenCaps(caps, shorter, rate);
      if k :| 0 <= k < |shorter| && shorter[k].rate == rate && rate in WriteCaps(caps, shorter)
                && shorter[k].burst == WriteCaps(caps, shorter)[rate] {
        assert quotas[k] == shorter[k];
      }
    }
  }

  /** The reservation whose request, settlement or reclaim an action is. */
  function Acting(s: Counters, a: Action): Option<Share> {
    match a
    case ReserveShare(share, _, _) => Some(share)
    case FinishShare(index, _, _) => if index < |s.shares| then Some(s.shares[index]) else None
    case ExpireShare(index, _) => if index < |s.shares| then Some(s.shares[index]) else None
  }

  /** An action that touches a rate does so under at most the given burst. */
  predicate BurstAtMost(share: Share, rate: string, burst: int) {
    forall k :: 0 <= k < |share.quotas| && share.quotas[k].rate == rate ==> share.quotas[k].burst <= burst
  }

  predicate Unraised(s: Counters, actions: seq<Action>, rate: string, burst: int)
    requires ValidShares(s.shares) && forall i :: 0 <= i < |actions| ==> ValidAction(actions[i])
    decreases |actions|
  {
    actions == [] ||
    (&& (Acting(s, actions[0]).Some? ==> BurstAtMost(Acting(s, actions[0]).value, rate, burst))
     && Unraised(Act(s, actions[0]), actions[1..], rate, burst))
  }

  /** Only requests, settlements and reclaims under a larger burst can raise a rate's cap. */
  lemma {:induction false} UnraisedCap(s: Counters, actions: seq<Action>, rate: string, burst: int)
    requires ValidShares(s.shares) && forall i :: 0 <= i < |actions| ==> ValidAction(actions[i])
    requires Unraised(s, actions, rate, burst)
    requires rate in s.caps && s.caps[rate] <= burst
    ensures rate in Run(s, actions).caps && Run(s, actions).caps[rate] <= burst
    decreases |actions|
  {
    if actions != [] {
      CapAfter(s, actions[0], rate, burst);
      UnraisedCap(Act(s, actions[0]), actions[1..], rate, burst);
    }
  }

  lemma CapAfter(s: Counters, a: Action, rate: string, burst: int)
    requires ValidShares(s.shares) && ValidAction(a)
    requires Acting(s, a).Some? ==> BurstAtMost(Acting(s, a).value, rate, burst)
    requires rate in s.caps && s.caps[rate] <= burst
    ensures rate in Act(s, a).caps && Act(s, a).caps[rate] <= burst
  {
    hide ValidShare, Judge, TakeWindows, TakeTokens, CloseWindows, Refund, Join, Leave, Verified, Countable, Settles;
    if Acting(s, a).Some? {
      WrittenCaps(s.caps, Acting(s, a).value.quotas, rate);
      CapsGrow(s.caps, Acting(s, a).value.quotas, rate);
    }
  }

  lemma {:induction false} CapsGrow(caps: map<string, int>, quotas: seq<QuotaSpec>, rate: string)
    ensures rate in caps ==> rate in WriteCaps(caps, quotas)
  {
    if quotas != [] { CapsGrow(caps, quotas[..|quotas| - 1], rate); }
  }

  lemma {:induction false} OwnCaps(caps: map<string, int>, quotas: seq<QuotaSpec>, k: nat)
    requires DistinctQuotas(quotas) && k < |quotas|
    ensures quotas[k].rate in WriteCaps(caps, quotas) && WriteCaps(caps, quotas)[quotas[k].rate] == quotas[k].burst
    decreases |quotas|
  {
    if k < |quotas| - 1 { OwnCaps(caps, quotas[..|quotas| - 1], k); }
  }

  /** A reservation's place and quotas outlive every later action. */
  lemma {:induction false} ShareStays(s: Counters, actions: seq<Action>, i: nat)
    requires ValidShares(s.shares) && (forall k :: 0 <= k < |actions| ==> ValidAction(actions[k])) && i < |s.shares|
    ensures i < |Run(s, actions).shares| && Run(s, actions).shares[i].quotas == s.shares[i].quotas
    decreases |actions|
  {
    hide ValidShare, Judge, TakeWindows, TakeTokens, WriteCaps, CloseWindows, Refund, Join, Leave, Verified;
    hide Countable, Settles;
    if actions != [] { ShareStays(Act(s, actions[0]), actions[1..], i); }
  }

  lemma {:induction false} RunsCompose(s: Counters, actions: seq<Action>, more: seq<Action>)
    requires ValidShares(s.shares)
    requires forall k :: 0 <= k < |actions| ==> ValidAction(actions[k])
    requires forall k :: 0 <= k < |more| ==> ValidAction(more[k])
    ensures Run(s, actions + more) == Run(Run(s, actions), more)
    decreases |actions|
  {
    hide Act, ValidAction;
    if actions == [] {
      assert actions + more == more;
    } else {
      assert (actions + more)[1..] == actions[1..] + more;
      RunsCompose(Act(s, actions[0]), actions[1..], more);
    }
  }

  /** A granted reservation is the last share, and every one of its buckets was just written under its own burst. */
  lemma {:induction false} ReservationSetsCaps(s: Counters, share: Share, now: real, trusted: set<string>)
    requires ValidShare(share) && !KnownId(s.shares, share.id) && Judge(s, share, now, trusted).Admitted?
    ensures var after := Reserve(s, share, now, trusted);
      && |after.shares| == |s.shares| + 1 && after.shares[|s.shares|].quotas == share.quotas
      && after.shares[|s.shares|].state.Reserved?
      && forall k :: 0 <= k < |share.quotas| ==>
           share.quotas[k].rate in after.caps && after.caps[share.quotas[k].rate] == share.quotas[k].burst
  {
    hide Judge, TakeWindows, TakeTokens, Join;
    forall k | 0 <= k < |share.quotas|
      ensures share.quotas[k].rate in WriteCaps(s.caps, share.quotas)
        && WriteCaps(s.caps, share.quotas)[share.quotas[k].rate] == share.quotas[k].burst
    {
      OwnCaps(s.caps, share.quotas, k);
    }
  }

  lemma {:induction false} LimitedConcat(limits: map<string, int>, actions: seq<Action>, a: Action, more: seq<Action>)
    requires AllUnderLimits(limits, actions) && AllUnderLimits(limits, more)
    requires a.ReserveShare? ==> UnderLimits(a.share, limits, a.now)
    ensures AllUnderLimits(limits, actions + [a] + more)
  {
    hide UnderLimits;
  }

  lemma {:induction false} RunsOne(s: Counters, a: Action)
    requires ValidShares(s.shares) && ValidAction(a)
    ensures Run(s, [a]) == Act(s, a)
  {
    assert Run(s, [a]) == Run(Act(s, a), []);
  }

  /**
   * From its own reservation on, an open reservation stays settleable through every run in which no
   * request, settlement or reclaim on one of its rates uses a larger burst than its own.
   */
  lemma {:induction false} UnraisedSinceReservedVerifies(
    limits: map<string, int>, actions: seq<Action>, share: Share, now: real, trusted: set<string>, more: seq<Action>)
    requires AllUnderLimits(limits, actions) && UnderLimits(share, limits, now) && AllUnderLimits(limits, more)
    requires !KnownId(After(limits, actions).shares, share.id)
    requires Judge(After(limits, actions), share, now, trusted).Admitted?
    requires forall k :: 0 <= k < |more| ==> ValidAction(more[k])
    requires forall k :: 0 <= k < |share.quotas| ==>
      var reserved := Act(After(limits, actions), ReserveShare(share, now, trusted));
      Unraised(reserved, more, share.quotas[k].rate, share.quotas[k].burst)
    ensures AllUnderLimits(limits, actions + [ReserveShare(share, now, trusted)] + more)
    ensures var i := |After(limits, actions).shares|;
      var after := After(limits, actions + [ReserveShare(share, now, trusted)] + more);
      i < |after.shares| && after.shares[i].quotas == share.quotas
      && (after.shares[i].state.Reserved? ==> Verified(after, after.shares[i]))
  {
    var request := ReserveShare(share, now, trusted);
    assert ValidAction(request);
    hide UnderLimits, Judge, Inv, Verified, Reserve, KnownId, ValidShare, Unraised;
    LimitedConcat(limits, actions, request, more);
    LimitedActionsAreValid(limits, actions);
    LimitedActionsAreValid(limits, actions + [request] + more);
    var before := After(limits, actions);
    var s := Act(before, request);
    var i := |before.shares|;
    ReservationSetsCaps(before, share, now, trusted);
    RunsCompose(NO_COUNTERS, actions, [request] + more);
    RunsCompose(before, [request], more);
    RunsOne(before, request);
    assert actions + [request] + more == actions + ([request] + more);
    var after := After(limits, actions + [request] + more);
    assert after == Run(s, more);
    ShareStays(s, more, i);
    forall k | 0 <= k < |share.quotas|
      ensures share.quotas[k].rate in after.caps && after.caps[share.quotas[k].rate] <= share.quotas[k].burst
    {
      UnraisedCap(s, more, share.quotas[k].rate, share.quotas[k].burst);
    }
    if after.shares[i].state.Reserved? { UnraisedBurstVerifies(limits, actions + [request] + more, i); }
  }

  // ----- A raised burst -----

  const REQUEST_ESTIMATE: map<UsageUnit, int> := map[Requests := 1]

  /** One user's minute window under the ordinary defaults, and after the user became trusted. */
  function MinuteShare(id: string, trusted: bool): Share {
    Share(
      id,
      [QuotaSpec("quota:0", "rate", Requests, 1, 0, if trusted then 12 else 6, if trusted then 6 else 3, 60, 60)],
      [ScopeSpec("global", 2), ScopeSpec("concurrency", if trusted then 2 else 1)],
      REQUEST_ESTIMATE, Reserved, map[])
  }

  const TRUST_LIMITS: map<string, int> := map["quota:0" := 12, "global" := 2, "concurrency" := 2]

  function TrustGranted(): seq<Action> {
    [ReserveShare(MinuteShare("job-1", false), 0.0, {}), ReserveShare(MinuteShare("job-2", true), 30.0, {})]
  }

  lemma TrustGrantedIsLimited()
    ensures AllUnderLimits(TRUST_LIMITS, TrustGranted())
  {
    assert UnderLimits(MinuteShare("job-1", false), TRUST_LIMITS, 0.0);
    assert UnderLimits(MinuteShare("job-2", true), TRUST_LIMITS, 30.0);
  }

  const ONE_RESERVED := Counters(
    map["quota:0" := Window(0, 1)], map["rate" := Bucket(2.0, 0.0)], map["rate" := 3],
    map["global" := {"job-1"}, "concurrency" := {"job-1"}], [MinuteShare("job-1", false)])

  const TWO_RESERVED := Counters(
    map["quota:0" := Window(0, 2)], map["rate" := Bucket(5.0, 30.0)], map["rate" := 6],
    map["global" := {"job-1", "job-2"}, "concurrency" := {"job-1", "job-2"}],
    [MinuteShare("job-1", false), MinuteShare("job-2", true)])

  /** What a single-quota, two-scope reservation writes. */
  lemma ReservesOne(s: Counters, share: Share, now: real)
    requires ValidShare(share) && |share.quotas| == 1
    ensures var q := share.quotas[0]; var w := WindowAt(s.windows, q.key);
      && TakeWindows(s.windows, share.quotas) == s.windows[q.key := Window(Max(w.used, q.baseline), w.held + q.amount)]
      && TakeTokens(s, share.quotas, now)
         == s.buckets[q.rate := Bucket(Refilled(q, BucketAt(s, q, now), now) - q.amount as real, now)]
      && WriteCaps(s.caps, share.quotas) == s.caps[q.rate := q.burst]
      && FirstProblem(s, share, {}, 1) == Problem(s, q, share.scopes[1].key, {})
  {
    assert share.quotas[..0] == [];
    assert FirstProblem(s, share, {}, 0) == None;
  }

  lemma JoinsTwo(members: map<string, set<string>>, a: ScopeSpec, b: ScopeSpec, id: string)
    requires a.key != b.key
    ensures Join(members, [a, b], id)
      == members[a.key := MembersOf(members, a.key) + {id}][b.key := MembersOf(members, b.key) + {id}]
  {
    assert [a, b][..1] == [a];
    assert [a][..0] == [];
    assert Join(members, [a], id) == members[a.key := MembersOf(members, a.key) + {id}];
  }

  lemma FirstIsReserved()
    ensures ValidShare(MinuteShare("job-1", false))
    ensures Reserve(NO_COUNTERS, MinuteShare("job-1", false), 0.0, {}) == ONE_RESERVED
  {
    var share := MinuteShare("job-1", false);
    ReservesOne(NO_COUNTERS, share, 0.0);
    JoinsTwo(NO_COUNTERS.members, share.scopes[0], share.scopes[1], "job-1");
    assert share.scopes == [share.scopes[0], share.scopes[1]];
    assert ValidQuota(share.quotas[0], 0.0);
    AdmittedExactlyWhenItFits(NO_COUNTERS, share, 0.0, {});
  }

  lemma SecondIsAdmitted()
    ensures ValidShare(MinuteShare("job-2", true))
    ensures Judge(ONE_RESERVED, MinuteShare("job-2", true), 30.0, {}).Admitted?
    ensures Refilled(MinuteShare("job-2", true).quotas[0], ONE_RESERVED.buckets["rate"], 30.0) == 6.0
  {
    var share := MinuteShare("job-2", true);
    ReservesOne(ONE_RESERVED, share, 30.0);
    assert ValidQuota(share.quotas[0], 30.0);
    assert Refilled(share.quotas[0], ONE_RESERVED.buckets["rate"], 30.0) == 6.0;
    assert QuotaFits(ONE_RESERVED, share.quotas[0], 30.0);
    assert ScopesFree(ONE_RESERVED, share);
    AdmittedExactlyWhenItFits(ONE_RESERVED, share, 30.0, {});
  }

  lemma SecondIsReserved()
    ensures ValidShare(MinuteShare("job-2", true))
    ensures Reserve(ONE_RESERVED, MinuteShare("job-2", true), 30.0, {}) == TWO_RESERVED
  {
    hide Judge, Refilled, Join, TakeWindows, TakeTokens, WriteCaps, FirstProblem, Problem;
    var share := MinuteShare("job-2", true);
    SecondIsAdmitted();
    ReservesOne(ONE_RESERVED, share, 30.0);
    JoinsTwo(ONE_RESERVED.members, share.scopes[0], share.scopes[1], "job-2");
    assert share.scopes == [share.scopes[0], share.scopes[1]];
    var after := Reserve(ONE_RESERVED, share, 30.0, {});
    assert !KnownId(ONE_RESERVED.shares, "job-2") by {
      assert ONE_RESERVED.shares[0].id == "job-1" && "job-1"[4] != "job-2"[4];
    }
    assert after.windows == TWO_RESERVED.windows;
    assert after.buckets == TWO_RESERVED.buckets;
    assert after.caps == TWO_RESERVED.caps;
    assert {"job-1"} + {"job-2"} == {"job-1", "job-2"};
    assert after.members == TWO_RESERVED.members;
    assert after.shares == TWO_RESERVED.shares;
  }

  predicate ScopesFree(s: Counters, share: Share) {
    forall i :: 0 <= i < |share.scopes| ==> !ScopeFull(s, share.scopes[i])
  }

  /**
   * "Every open reservation can be settled while counters are kept" is false: once a second request
   * refills the shared bucket under a larger burst, no settlement of the first one is accepted at any
   * time, because nothing but another write lowers the stored tokens.
   */
  lemma RaisedBurstBlocksSettlement(actual: map<UsageUnit, int>, now: real)
    ensures AllUnderLimits(TRUST_LIMITS, TrustGranted())
    ensures var s := After(TRUST_LIMITS, TrustGranted());
      && s == TWO_RESERVED && s.shares[0].state.Reserved? && s.shares[1].state.Reserved?
      && !Verified(s, s.shares[0]) && Verified(s, s.shares[1])
      && Finish(s, 0, actual, now) == s
  {
    TrustGrantedIsLimited();
    LimitedActionsAreValid(TRUST_LIMITS, TrustGranted());
    FirstIsReserved();
    SecondIsReserved();
    var actions := TrustGranted();
    assert actions[1..] == [actions[1]] && [actions[1]][1..] == [];
    assert Run(NO_COUNTERS, actions) == Run(Act(NO_COUNTERS, actions[0]), [actions[1]]);
    assert Run(ONE_RESERVED, [actions[1]]) == Run(Act(ONE_RESERVED, actions[1]), []);
    FirstIsBlocked();
  }

  lemma FirstIsBlocked()
    ensures !Verified(TWO_RESERVED, TWO_RESERVED.shares[0]) && Verified(TWO_RESERVED, TWO_RESERVED.shares[1])
  {
    assert TWO_RESERVED.buckets[TWO_RESERVED.shares[0].quotas[0].rate].tokens == 5.0;
  }
}
