/**
 * The times and amounts behind the counters: a postponed request is told the least time at which it fits, and
 * settling gives back to each bucket exactly what was not consumed, up to its burst.
 */
module QuotaTiming {
  import opened Wrappers
  import opened Usage
  import opened Budgets
  import opened QuotaCounters

  // ----- The least time at which a request fits -----

  /** The window has room, or is over. */
  predicate WindowOpenAt(s: Counters, q: QuotaSpec, t: real) {
    var w := WindowAt(s.windows, q.key);
    Max(w.used, q.baseline) + w.held + q.amount <= q.limit || t >= q.ends as real
  }

  /** The bucket as it stands holds enough at t. */
  predicate BucketFullAt(s: Counters, q: QuotaSpec, now: real, t: real)
    requires q.seconds > 0
  {
    Refilled(q, BucketAt(s, q, now), t) >= q.amount as real
  }

  /** How far a bucket was written ahead of the clock that now looks at it, when it has to be waited for. */
  function Ahead(s: Counters, q: QuotaSpec, now: real): real
    requires q.seconds > 0
  {
    if BucketFullAt(s, q, now, now) then 0.0 else MaxReal(0.0, BucketAt(s, q, now).at - now)
  }

  /** What flows into a bucket in the elapsed time. */
  function Flow(elapsed: real, seconds: int, limit: int): real
    requires seconds > 0
  {
    elapsed * limit as real / seconds as real
  }

  /** Refilling at limit per window reaches the missing amount after exactly the computed wait. */
  lemma WaitsExactly(missing: real, elapsed: real, seconds: int, limit: int)
    requires seconds > 0 && limit > 0
    ensures Flow(elapsed, seconds, limit) >= missing <==> elapsed >= Wait(missing, seconds, limit)
  {
    var l, w := limit as real, seconds as real;
    Scales(elapsed * l / w, missing, w);
    assert (elapsed * l / w) * w == elapsed * l;
    Scales(elapsed, missing * w / l, l);
    assert (missing * w / l) * l == missing * w;
  }

  lemma Scales(a: real, b: real, factor: real)
    requires factor > 0.0
    ensures a >= b <==> a * factor >= b * factor
  {
    if a >= b { assert (a - b) * factor >= 0.0; } else { assert (b - a) * factor > 0.0; }
  }

  /** The bucket holds enough from the computed time on and not before, if it was not written ahead of the clock. */
  lemma {:induction false} TokensSufficeExactly(s: Counters, q: QuotaSpec, now: real, t: real)
    requires ValidQuota(q, now) && q.amount <= q.burst && now <= t
    ensures var missing := q.amount as real - Refilled(q, BucketAt(s, q, now), now);
      BucketFullAt(s, q, now, t) <==>
        missing <= 0.0 || t >= now + Wait(missing, q.seconds, q.limit) + Ahead(s, q, now)
  {
    hide Gained, Wait, Flow, ValidQuota;
    QuotaNumbers(q, now);
    var bucket := BucketAt(s, q, now);
    var amount := q.amount as real;
    var start := MaxReal(now, bucket.at);
    var tokens := bucket.tokens + Gained(q, bucket, now);
    GainGrows(q, bucket, now, t);
    if tokens < amount {
      var elapsed := MaxReal(0.0, t - start);
      GainSince(q, bucket, now, t);
      WaitsExactly(amount - tokens, elapsed, q.seconds, q.limit);
      WaitIsPositive(amount - tokens, q.seconds, q.limit);
    }
  }

  lemma QuotaNumbers(q: QuotaSpec, now: real)
    requires ValidQuota(q, now)
    ensures q.seconds > 0 && q.limit > 0 && q.burst > 0 && q.amount > 0
  {
  }

  lemma WaitIsPositive(missing: real, seconds: int, limit: int)
    requires missing > 0.0 && seconds > 0 && limit > 0
    ensures Wait(missing, seconds, limit) > 0.0
  {
    PositiveWait(missing, seconds, limit);
  }

  lemma GainGrows(q: QuotaSpec, bucket: Bucket, now: real, t: real)
    requires q.seconds > 0 && q.limit > 0 && now <= t
    ensures 0.0 <= Gained(q, bucket, now) <= Gained(q, bucket, t)
  {
    var l, w := q.limit as real, q.seconds as real;
    var a, b := MaxReal(0.0, now - bucket.at), MaxReal(0.0, t - bucket.at);
    assert 0.0 <= a <= b;
    Scales(b, a, l);
    Scales(a, 0.0, l);
    Scales(b * l, a * l, 1.0 / w);
    Scales(a * l, 0.0, 1.0 / w);
  }

  /** What the bucket gains after both the clock and its own time. */
  lemma GainSince(q: QuotaSpec, bucket: Bucket, now: real, t: real)
    requires q.seconds > 0 && now <= t
    ensures var start := MaxReal(now, bucket.at);
      Gained(q, bucket, t)
      == Gained(q, bucket, now) + Flow(MaxReal(0.0, t - start), q.seconds, q.limit)
  {
    var l, w := q.limit as real, q.seconds as real;
    if now >= bucket.at {
      assert (t - bucket.at) * l / w == (now - bucket.at) * l / w + (t - now) * l / w;
    }
  }

  /** Both the window and the bucket allow the request at t, if nothing else happens until then. */
  predicate FitsAt(s: Counters, q: QuotaSpec, now: real, t: real)
    requires q.seconds > 0
  {
    WindowOpenAt(s, q, t) && BucketFullAt(s, q, now, t)
  }

  /**
   * The time a quota postpones a request to is the least one at which it fits: the end of a full window, the
   * moment an empty bucket holds enough again, the later of the two. The one exception is exact: a bucket
   * written by a clock ahead of this one holds enough only that much later.
   */
  lemma {:induction false} QuotaRetryIsLeast(s: Counters, q: QuotaSpec, now: real, t: real)
    requires ValidQuota(q, now) && q.amount <= q.burst && now <= t
    ensures QuotaRetry(s, q, now) <= t && (BucketFullAt(s, q, now, now) || BucketAt(s, q, now).at <= now) ==>
      FitsAt(s, q, now, t)
    ensures FitsAt(s, q, now, t) ==> QuotaRetry(s, q, now) <= t
    ensures FitsAt(s, q, now, t) <==>
      WindowOpenAt(s, q, t)
      && (BucketFullAt(s, q, now, now)
          || t >= now + Wait(q.amount as real - Refilled(q, BucketAt(s, q, now), now), q.seconds, q.limit)
                  + Ahead(s, q, now))
  {
    hide Refilled, Wait, BucketAt, WindowAt;
    TokensSufficeExactly(s, q, now, t);
    TokensSufficeExactly(s, q, now, now);
  }

  /** No bucket of the request was written by a clock ahead of this one. */
  predicate ClockIsNotBehind(s: Counters, share: Share, now: real) {
    forall i :: 0 <= i < |share.quotas| ==> BucketAt(s, share.quotas[i], now).at <= now
  }

  lemma {:induction false} RetryIsLeast(s: Counters, share: Share, now: real, n: nat, t: real)
    requires n <= |share.quotas| && ValidShare(share) && now <= t && ClockIsNotBehind(s, share, now)
    requires forall i :: 0 <= i < |share.quotas| ==>
      ValidQuota(share.quotas[i], now) && share.quotas[i].amount <= share.quotas[i].burst
    ensures Retry(s, share, now, n) <= t <==> forall i :: 0 <= i < n ==> FitsAt(s, share.quotas[i], now, t)
  {
    hide QuotaRetry, BucketFullAt, WindowOpenAt, FitsAt, Refilled, Wait;
    if n > 0 {
      RetryIsLeast(s, share, now, n - 1, t);
      QuotaRetryIsLeast(s, share.quotas[n - 1], now, t);
    }
  }

  lemma {:induction false} JudgeableFitsBursts(s: Counters, share: Share, trusted: set<string>, n: nat)
    requires n <= |share.quotas| && |share.scopes| == |share.quotas| + 1 && FirstProblem(s, share, trusted, n).None?
    ensures forall i :: 0 <= i < n ==> share.quotas[i].amount <= share.quotas[i].burst
  {
    if n > 0 { JudgeableFitsBursts(s, share, trusted, n - 1); }
  }

  /**
   * A postponed request is told the least time at which all its quotas fit if the counters stay as they are, but
   * at least one second while a concurrency scope is full.
   */
  lemma {:induction false} WaitingIsLeast(s: Counters, share: Share, now: real, trusted: set<string>, t: real)
    requires ValidShare(share) && now <= t && ClockIsNotBehind(s, share, now)
    requires forall i :: 0 <= i < |share.quotas| ==> ValidQuota(share.quotas[i], now)
    requires Judge(s, share, now, trusted).Waiting?
    ensures Judge(s, share, now, trusted).retry <= t <==>
      && (forall i :: 0 <= i < |share.quotas| ==> FitsAt(s, share.quotas[i], now, t))
      && ((exists i :: 0 <= i < |share.scopes| && ScopeFull(s, share.scopes[i])) ==> now + 1.0 <= t)
  {
    hide FitsAt, Retry, ScopeFull, Problem, QuotaFits, ClockIsNotBehind, BucketAt;
    ProblemsAreRefusals(s, share, trusted, |share.quotas|);
    JudgeableFitsBursts(s, share, trusted, |share.quotas|);
    RetryIsLeast(s, share, now, |share.quotas|, t);
  }

  // ----- What settling gives back -----

  /** What a settlement consumes of one quota. */
  function Consumed(q: QuotaSpec, actual: map<UsageUnit, int>): int {
    if q.unit in actual then actual[q.unit] else 0
  }

  /** Each bucket gets back what was not consumed, on top of what flowed in, up to its burst; others are untouched. */
  lemma {:induction false} RefundsExactly(
    s: Counters, quotas: seq<QuotaSpec>, actual: map<UsageUnit, int>, now: real, rate: string)
    requires DistinctQuotas(quotas) && forall i :: 0 <= i < |quotas| ==> quotas[i].seconds > 0
    ensures (forall i :: 0 <= i < |quotas| ==> quotas[i].rate != rate) ==>
      (rate in Refund(s, quotas, actual, now) <==> rate in s.buckets)
      && (rate in s.buckets ==> Refund(s, quotas, actual, now)[rate] == s.buckets[rate])
    ensures forall i :: 0 <= i < |quotas| && quotas[i].rate == rate ==>
      var q := quotas[i]; var bucket := BucketAt(s, q, now);
      && rate in Refund(s, quotas, actual, now)
      && Refund(s, quotas, actual, now)[rate]
         == Bucket(
              MinReal(
                q.burst as real, bucket.tokens + Gained(q, bucket, now) + (q.amount - Consumed(q, actual)) as real),
              now)
    decreases |quotas|
  {
    hide Gained;
    if quotas != [] {
      RefundsExactly(s, quotas[..|quotas| - 1], actual, now, rate);
    }
  }

  /** Settling at the full amount gives nothing back: the bucket is only refilled. */
  lemma {:induction false} FullSettlementGivesNothingBack(
    s: Counters, share: Share, actual: map<UsageUnit, int>, now: real, k: nat)
    requires ValidShare(share) && k < |share.quotas| && actual == share.estimates
    ensures var q := share.quotas[k];
      && q.rate in Refund(s, share.quotas, actual, now)
      && Refund(s, share.quotas, actual, now)[q.rate] == Bucket(Refilled(q, BucketAt(s, q, now), now), now)
  {
    hide Gained;
    RefundsExactly(s, share.quotas, actual, now, share.quotas[k].rate);
  }

  /** A zero settlement, or a reclaim, gives the whole amount back, up to the burst. */
  lemma {:induction false} ZeroSettlementGivesAllBack(
    s: Counters, share: Share, actual: map<UsageUnit, int>, now: real, k: nat)
    requires ValidShare(share) && k < |share.quotas| && forall unit :: unit in actual ==> actual[unit] == 0
    ensures var q := share.quotas[k]; var bucket := BucketAt(s, q, now);
      && q.rate in Refund(s, share.quotas, actual, now)
      && Refund(s, share.quotas, actual, now)[q.rate].tokens
         == MinReal(q.burst as real, bucket.tokens + Gained(q, bucket, now) + q.amount as real)
  {
    hide Gained;
    RefundsExactly(s, share.quotas, actual, now, share.quotas[k].rate);
  }

  lemma {:induction false} TakesExactly(s: Counters, quotas: seq<QuotaSpec>, now: real, rate: string)
    requires DistinctQuotas(quotas) && forall i :: 0 <= i < |quotas| ==> quotas[i].seconds > 0
    ensures (forall i :: 0 <= i < |quotas| ==> quotas[i].rate != rate) ==>
      (rate in TakeTokens(s, quotas, now) <==> rate in s.buckets)
      && (rate in s.buckets ==> TakeTokens(s, quotas, now)[rate] == s.buckets[rate])
    ensures forall i :: 0 <= i < |quotas| && quotas[i].rate == rate ==>
      var q := quotas[i];
      && rate in TakeTokens(s, quotas, now)
      && TakeTokens(s, quotas, now)[rate] == Bucket(Refilled(q, BucketAt(s, q, now), now) - q.amount as real, now)
    decreases |quotas|
  {
    hide Refilled;
    if quotas != [] { TakesExactly(s, quotas[..|quotas| - 1], now, rate); }
  }

  /** The counters with the request's amounts taken. */
  function Taken(s: Counters, share: Share, now: real): Counters
    requires ValidShare(share)
  {
    s.(windows := TakeWindows(s.windows, share.quotas), buckets := TakeTokens(s, share.quotas, now))
  }

  /**
   * Reserving and giving back at once is as if nothing had been taken: each bucket holds what it held, refilled,
   * each window holds as much as before, and every other bucket is untouched.
   */
  lemma {:induction false} ReserveThenReleaseRestores(
    s: Counters, share: Share, now: real, actual: map<UsageUnit, int>, k: nat, key: string)
    requires ValidShare(share) && k < |share.quotas|
    requires forall i :: 0 <= i < |share.quotas| ==> ValidQuota(share.quotas[i], now)
    requires forall unit :: unit in actual ==> actual[unit] == 0
    requires forall i :: 0 <= i < |share.quotas| ==> WindowAt(s.windows, share.quotas[i].key).held >= 0
    ensures var taken := Taken(s, share, now);
      var q := share.quotas[k];
      && q.rate in Refund(taken, share.quotas, actual, now)
      && Refund(taken, share.quotas, actual, now)[q.rate] == Bucket(Refilled(q, BucketAt(s, q, now), now), now)
      && WindowAt(CloseWindows(taken.windows, share.quotas, actual), key).held == WindowAt(s.windows, key).held
  {
    hide Refilled, Gained;
    var q := share.quotas[k];
    var taken := Taken(s, share, now);
    TakesExactly(s, share.quotas, now, q.rate);
    RefundsExactly(taken, share.quotas, actual, now, q.rate);
    NothingFlowsAtOnce(q, taken.buckets[q.rate], now);
    RefilledWithinBurst(q, BucketAt(s, q, now), now);
    forall i | 0 <= i < |share.quotas|
      ensures WindowAt(taken.windows, share.quotas[i].key).held >= share.quotas[i].amount
    {
      TakingWindows(s.windows, share.quotas, share.quotas[i].key);
    }
    TakingWindows(s.windows, share.quotas, key);
    ClosingWindows(taken.windows, share.quotas, actual, key);
  }

  lemma NothingFlowsAtOnce(q: QuotaSpec, bucket: Bucket, now: real)
    requires q.seconds > 0 && bucket.at == now
    ensures Gained(q, bucket, now) == 0.0
  {
  }

  lemma RefilledWithinBurst(q: QuotaSpec, bucket: Bucket, now: real)
    requires q.seconds > 0
    ensures Refilled(q, bucket, now) <= q.burst as real
  {
  }

  // ----- Which requests can be judged -----

  /** The request asks for more than its quota could ever hold. */
  predicate TooBig(q: QuotaSpec) {
    q.amount > q.burst || q.amount > q.limit
  }

  /**
   * The quota's counters cannot be trusted: a window without its bucket, a lost window while others hold places,
   * or more held than can be counted exactly.
   */
  predicate Untrusted(s: Counters, q: QuotaSpec, scope: string, trusted: set<string>) {
    || (q.key in s.windows && q.rate !in s.buckets)
    || (q.key !in s.windows && q.key !in trusted && scope in s.members && s.members[scope] != {})
    || (if q.key in s.windows then s.windows[q.key].held else 0) + q.amount > 0x1F_FFFF_FFFF_FFFF
  }

  /** Quota by quota in order, the first that is too big or untrusted decides; only a request with neither is judged. */
  lemma {:induction false} JudgedExactly(s: Counters, share: Share, trusted: set<string>, n: nat)
    requires n <= |share.quotas| && |share.scopes| == |share.quotas| + 1
    ensures var problem := FirstProblem(s, share, trusted, n);
      && (problem.None? <==>
            forall i :: 0 <= i < n ==>
              !TooBig(share.quotas[i]) && !Untrusted(s, share.quotas[i], share.scopes[i + 1].key, trusted))
      && (problem.Some? ==>
            exists i :: 0 <= i < n
              && (forall j :: 0 <= j < i ==>
                    !TooBig(share.quotas[j]) && !Untrusted(s, share.quotas[j], share.scopes[j + 1].key, trusted))
              && (if TooBig(share.quotas[i]) then problem.value.NeverFits?
                  else Untrusted(s, share.quotas[i], share.scopes[i + 1].key, trusted) && problem.value.Unavailable?))
  {
    if n > 0 {
      JudgedExactly(s, share, trusted, n - 1);
    }
  }

  // ----- Lost counters -----

  /** The quota's window is missing or holds less than the share took, or its bucket is missing or overfull. */
  predicate LostQuota(s: Counters, q: QuotaSpec) {
    || q.key !in s.windows || s.windows[q.key].held < q.amount
    || q.rate !in s.buckets || s.buckets[q.rate].tokens > q.burst as real
  }

  /** The share's place in the scope is gone. */
  predicate LostPlace(s: Counters, scope: string, id: string) {
    scope !in s.members || id !in s.members[scope]
  }

  /** Every counter is a number the store can hold. */
  predicate Readable(s: Counters, q: QuotaSpec) {
    && (q.key in s.windows ==> s.windows[q.key].used >= 0)
    && (q.rate in s.buckets ==> s.buckets[q.rate].tokens >= 0.0)
  }

  /** What the settlement consumes can still be counted exactly. */
  predicate CountedExactly(s: Counters, q: QuotaSpec, actual: map<UsageUnit, int>) {
    q.key in s.windows && q.unit in actual ==> s.windows[q.key].used + actual[q.unit] <= 0x1F_FFFF_FFFF_FFFF
  }

  /**
   * An open share is settled exactly by amounts of its own units, none negative and none above its estimate, while
   * no counter it relies on is lost, unreadable or too large; any other settlement changes nothing at all.
   */
  lemma {:induction false} SettlesExactly(s: Counters, i: nat, actual: map<UsageUnit, int>, now: real)
    requires i < |s.shares| && ValidShare(s.shares[i]) && s.shares[i].state.Reserved?
    ensures var share := s.shares[i];
      var accepted :=
        && actual.Keys == share.estimates.Keys
        && (forall unit :: unit in actual ==> 0 <= actual[unit] <= share.estimates[unit])
        && (forall k :: 0 <= k < |share.quotas| ==>
              && !LostQuota(s, share.quotas[k]) && Readable(s, share.quotas[k])
              && CountedExactly(s, share.quotas[k], actual))
        && (forall k :: 0 <= k < |share.scopes| ==> !LostPlace(s, share.scopes[k].key, share.id));
      && (accepted <==> Settled(Finish(s, i, actual, now).shares[i].state))
      && (!accepted ==> Finish(s, i, actual, now) == s)
  {
    hide ValidShare, CloseWindows, Refund, WriteCaps, Leave;
    var share := s.shares[i];
    assert forall k :: 0 <= k < |share.quotas| && share.quotas[k].key in s.windows ==>
      WindowAt(s.windows, share.quotas[k].key) == s.windows[share.quotas[k].key];
  }

  /** Closing a share never brings back a window that was lost. */
  lemma {:induction false} LostWindowStaysLost(
    windows: map<string, Window>, quotas: seq<QuotaSpec>, actual: map<UsageUnit, int>, key: string)
    ensures key in CloseWindows(windows, quotas, actual) <==> key in windows
  {
    if quotas != [] { LostWindowStaysLost(windows, quotas[..|quotas| - 1], actual, key); }
  }
}
