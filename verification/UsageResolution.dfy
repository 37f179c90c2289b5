/** Resolving defaults and overrides into the policies a job is reserved, charged and settled under. */
module UsageResolution {
  import opened Wrappers
  import opened Usage
  import opened Jobs
  import opened AdmissionState

  const MEDIA := "media"
  const MEDIA_BUCKET := "family:media"

  datatype UsagePolicy = UsagePolicy(
    bucket: string, limit: int, burst: int, concurrency: int, pending: int, unit: UsageUnit, window: UsageWindow)

  datatype FeatureDefinition = FeatureDefinition(key: string, usagePolicy: string, units: set<UsageUnit>)

  datatype ResolutionError = PoliciesMissing

  predicate ValidPolicy(policy: UsagePolicy) {
    && policy.limit > 0 && policy.burst > 0 && policy.concurrency > 0 && policy.pending > 0
    && policy.burst <= policy.limit
    && ScopedBucket(policy.bucket)
    && ValidWindow(policy.window)
  }

  predicate ValidDefinition(definition: FeatureDefinition) {
    definition.key != "" && definition.usagePolicy != ""
  }

  predicate AllValidPolicies(policies: seq<UsagePolicy>) {
    forall i :: 0 <= i < |policies| ==> ValidPolicy(policies[i])
  }

  function FeatureBucket(definition: FeatureDefinition): string {
    "feature:" + definition.key
  }

  function FamilyBucket(definition: FeatureDefinition): string {
    "family:" + definition.usagePolicy
  }

  function Buckets(definition: FeatureDefinition): set<string> {
    {FeatureBucket(definition), FamilyBucket(definition)}
  }

  // ----- The policy table: one entry per bucket and window length, in insertion order -----

  predicate SameKey(a: UsagePolicy, b: UsagePolicy) {
    a.bucket == b.bucket && a.window.seconds == b.window.seconds
  }

  predicate DistinctKeys(table: seq<UsagePolicy>) {
    forall i, j :: 0 <= i < j < |table| ==> !SameKey(table[i], table[j])
  }

  function Put(table: seq<UsagePolicy>, policy: UsagePolicy): seq<UsagePolicy> {
    if table == [] then [policy]
    else if SameKey(table[0], policy) then [policy] + table[1..]
    else [table[0]] + Put(table[1..], policy)
  }

  function Find(table: seq<UsagePolicy>, bucket: string, seconds: int): Option<UsagePolicy> {
    if table == [] then None
    else if table[0].bucket == bucket && table[0].window.seconds == seconds then Some(table[0])
    else Find(table[1..], bucket, seconds)
  }

  function DefaultPolicy(bucket: string, group: bool, trusted: bool): UsagePolicy {
    var elevated := group || trusted;
    UsagePolicy(
      bucket,
      if elevated then 12 else 6,
      if elevated then 6 else 3,
      if elevated then 2 else 1,
      if group then 25 else 10,
      Requests,
      UsageWindow(MINUTE_SECONDS))
  }

  /** Only media request usage has defaults; the family bucket sorts before the feature bucket. */
  function DefaultPolicies(
    definition: FeatureDefinition, unit: UsageUnit, group: bool, trusted: bool): seq<UsagePolicy>
  {
    if !unit.Requests? || definition.usagePolicy != MEDIA then []
    else
      [DefaultPolicy(FamilyBucket(definition), group, trusted),
       DefaultPolicy(FeatureBucket(definition), group, trusted)]
  }

  predicate Matches(override: UsagePolicy, buckets: set<string>, unit: UsageUnit) {
    override.bucket in buckets && override.unit == unit
  }

  function Overridden(
    table: seq<UsagePolicy>, overrides: seq<UsagePolicy>, buckets: set<string>, unit: UsageUnit): seq<UsagePolicy>
    decreases |overrides|
  {
    if overrides == [] then table
    else
      var before := Overridden(table, overrides[..|overrides| - 1], buckets, unit);
      var last := overrides[|overrides| - 1];
      if Matches(last, buckets, unit) then Put(before, last) else before
  }

  method ApplyOverrides(
    table: seq<UsagePolicy>, overrides: seq<UsagePolicy>, buckets: set<string>, unit: UsageUnit)
    returns (policies: seq<UsagePolicy>)
    ensures policies == Overridden(table, overrides, buckets, unit)
  {
    policies := table;
    for n := 0 to |overrides|
      invariant policies == Overridden(table, overrides[..n], buckets, unit)
    {
      assert overrides[..n + 1][..n] == overrides[..n];
      if overrides[n].bucket in buckets && overrides[n].unit == unit {
        policies := Put(policies, overrides[n]);
      }
    }
    assert overrides[..|overrides|] == overrides;
  }

  predicate Covers(policies: seq<UsagePolicy>, bucket: string) {
    exists i :: 0 <= i < |policies| && policies[i].bucket == bucket
  }

  function ResolveUsage(
    definition: FeatureDefinition, overrides: seq<UsagePolicy>, group: bool, trusted: bool, unit: UsageUnit)
    : Result<seq<UsagePolicy>, ResolutionError>
  {
    var policies := Overridden(DefaultPolicies(definition, unit, group, trusted), overrides, Buckets(definition), unit);
    if forall bucket :: bucket in Buckets(definition) ==> Covers(policies, bucket)
    then Success(policies)
    else Failure(PoliciesMissing)
  }

  // ----- The table behaves as a dictionary -----

  lemma {:induction false} PutFinds(table: seq<UsagePolicy>, policy: UsagePolicy, bucket: string, seconds: int)
    ensures Find(Put(table, policy), bucket, seconds) ==
      if policy.bucket == bucket && policy.window.seconds == seconds then Some(policy) else Find(table, bucket, seconds)
  {
    if table != [] { PutFinds(table[1..], policy, bucket, seconds); }
  }

  lemma {:induction false} PutKeeps(table: seq<UsagePolicy>, policy: UsagePolicy)
    requires DistinctKeys(table)
    ensures DistinctKeys(Put(table, policy))
    ensures forall i :: 0 <= i < |Put(table, policy)| ==>
      Put(table, policy)[i] == policy || Put(table, policy)[i] in table
    ensures policy in Put(table, policy)
    ensures forall p :: p in table && !SameKey(p, policy) ==> p in Put(table, policy)
  {
    if table != [] {
      assert table == [table[0]] + table[1..];
      if !SameKey(table[0], policy) {
        PutKeeps(table[1..], policy);
        var rest := Put(table[1..], policy);
        forall j | 0 <= j < |rest| ensures !SameKey(table[0], rest[j]) {
          if rest[j] != policy { assert rest[j] in table[1..]; }
        }
      } else {
        forall j | 0 <= j < |table[1..]| ensures !SameKey(policy, table[1..][j]) {
          assert !SameKey(table[0], table[j + 1]);
        }
      }
    }
  }

  lemma FindSome(table: seq<UsagePolicy>, i: nat)
    requires i < |table|
    ensures Find(table, table[i].bucket, table[i].window.seconds).Some?
  {
    if i > 0 { FindSome(table[1..], i - 1); }
  }

  lemma {:induction false} FoundIsListed(table: seq<UsagePolicy>, bucket: string, seconds: int)
    requires Find(table, bucket, seconds).Some?
    ensures var p := Find(table, bucket, seconds).value; p in table && p.bucket == bucket && p.window.seconds == seconds
  {
    if table[0].bucket != bucket || table[0].window.seconds != seconds { FoundIsListed(table[1..], bucket, seconds); }
  }

  /** The last matching override of a bucket and window. */
  function LastOverride(
    overrides: seq<UsagePolicy>, buckets: set<string>, unit: UsageUnit, bucket: string, seconds: int)
    : Option<UsagePolicy>
    decreases |overrides|
  {
    if overrides == [] then None
    else
      var last := overrides[|overrides| - 1];
      if Matches(last, buckets, unit) && last.bucket == bucket && last.window.seconds == seconds then Some(last)
      else LastOverride(overrides[..|overrides| - 1], buckets, unit, bucket, seconds)
  }

  /** Per bucket and window the last matching override wins, and the default stands where there is none. */
  lemma {:induction false} LastOverrideWins(
    table: seq<UsagePolicy>, overrides: seq<UsagePolicy>, buckets: set<string>, unit: UsageUnit,
    bucket: string, seconds: int)
    ensures Find(Overridden(table, overrides, buckets, unit), bucket, seconds) ==
      var last := LastOverride(overrides, buckets, unit, bucket, seconds);
      if last.Some? then last else Find(table, bucket, seconds)
    decreases |overrides|
  {
    if overrides != [] {
      var before := overrides[..|overrides| - 1];
      LastOverrideWins(table, before, buckets, unit, bucket, seconds);
      PutFinds(Overridden(table, before, buckets, unit), overrides[|overrides| - 1], bucket, seconds);
    }
  }

  /** What every policy in a resolved table satisfies. */
  predicate Resolved(policies: seq<UsagePolicy>, buckets: set<string>, unit: UsageUnit) {
    && DistinctKeys(policies) && AllValidPolicies(policies)
    && forall i :: 0 <= i < |policies| ==> policies[i].bucket in buckets && policies[i].unit == unit
  }

  lemma {:induction false} OverriddenStaysResolved(
    table: seq<UsagePolicy>, overrides: seq<UsagePolicy>, buckets: set<string>, unit: UsageUnit)
    requires Resolved(table, buckets, unit) && AllValidPolicies(overrides)
    ensures Resolved(Overridden(table, overrides, buckets, unit), buckets, unit)
    decreases |overrides|
  {
    if overrides != [] {
      var last := overrides[|overrides| - 1];
      var before := Overridden(table, overrides[..|overrides| - 1], buckets, unit);
      OverriddenStaysResolved(table, overrides[..|overrides| - 1], buckets, unit);
      PutKeeps(before, last);
      forall i | 0 <= i < |Put(before, last)| && Matches(last, buckets, unit)
        ensures var p := Put(before, last)[i]; ValidPolicy(p) && p.bucket in buckets && p.unit == unit
      {
        var p := Put(before, last)[i];
        if p != last {
          assert p in before;
          var k :| 0 <= k < |before| && before[k] == p;
        }
      }
    }
  }

  lemma DefaultsAreResolved(definition: FeatureDefinition, unit: UsageUnit, group: bool, trusted: bool)
    requires ValidDefinition(definition)
    ensures Resolved(DefaultPolicies(definition, unit, group, trusted), Buckets(definition), unit)
  {
    assert FeatureBucket(definition)[1] == 'e' && FamilyBucket(definition)[1] == 'a';
    assert ScopedBucket(FeatureBucket(definition)) && ScopedBucket(FamilyBucket(definition));
  }

  predicate AllCovered(policies: seq<UsagePolicy>, definition: FeatureDefinition) {
    forall bucket :: bucket in Buckets(definition) ==> Covers(policies, bucket)
  }

  /**
   * Whatever the overrides are, resolved usage is one restriction per bucket and window, all valid and
   * in the requested unit, with no bucket left unrestricted.
   */
  lemma ResolvedUsageIsSound(
    definition: FeatureDefinition, overrides: seq<UsagePolicy>, group: bool, trusted: bool, unit: UsageUnit)
    requires ValidDefinition(definition) && AllValidPolicies(overrides)
    ensures var resolved := ResolveUsage(definition, overrides, group, trusted, unit);
      resolved.Success? ==>
        Resolved(resolved.value, Buckets(definition), unit) && AllCovered(resolved.value, definition)
  {
    DefaultsAreResolved(definition, unit, group, trusted);
    OverriddenStaysResolved(
      DefaultPolicies(definition, unit, group, trusted), overrides, Buckets(definition), unit);
  }

  predicate Overrides(overrides: seq<UsagePolicy>, bucket: string, unit: UsageUnit) {
    exists i :: 0 <= i < |overrides| && overrides[i].bucket == bucket && overrides[i].unit == unit
  }

  lemma {:induction false} CoverageComesFrom(
    table: seq<UsagePolicy>, overrides: seq<UsagePolicy>, buckets: set<string>, unit: UsageUnit, bucket: string)
    requires DistinctKeys(table) && bucket in buckets
    ensures DistinctKeys(Overridden(table, overrides, buckets, unit))
    ensures Covers(Overridden(table, overrides, buckets, unit), bucket) <==>
      Covers(table, bucket) || Overrides(overrides, bucket, unit)
    decreases |overrides|
  {
    if overrides != [] {
      var shorter := overrides[..|overrides| - 1];
      var last := overrides[|overrides| - 1];
      var before := Overridden(table, shorter, buckets, unit);
      CoverageComesFrom(table, shorter, buckets, unit, bucket);
      PutKeeps(before, last);
      PutCovers(before, last, bucket);
      OverridesSnoc(overrides, bucket, unit);
    }
  }

  lemma OverridesSnoc(overrides: seq<UsagePolicy>, bucket: string, unit: UsageUnit)
    requires overrides != []
    ensures var last := overrides[|overrides| - 1];
      Overrides(overrides, bucket, unit) <==>
        Overrides(overrides[..|overrides| - 1], bucket, unit) || (last.bucket == bucket && last.unit == unit)
  {
    var shorter := overrides[..|overrides| - 1];
    if Overrides(shorter, bucket, unit) {
      var i :| 0 <= i < |shorter| && shorter[i].bucket == bucket && shorter[i].unit == unit;
      assert overrides[i].bucket == bucket;
    }
    if i :| 0 <= i < |shorter| && overrides[i].bucket == bucket && overrides[i].unit == unit {
      assert shorter[i].bucket == bucket;
    }
  }

  lemma {:induction false} PutCovers(table: seq<UsagePolicy>, policy: UsagePolicy, bucket: string)
    ensures Covers(Put(table, policy), bucket) <==> Covers(table, bucket) || policy.bucket == bucket
  {
    if table != [] {
      PutCovers(table[1..], policy, bucket);
      assert table == [table[0]] + table[1..];
      ConsCovers(table[0], table[1..], bucket);
      ConsCovers(policy, table[1..], bucket);
      ConsCovers(table[0], Put(table[1..], policy), bucket);
    } else {
      assert Put(table, policy) == [policy] + [];
      ConsCovers(policy, [], bucket);
    }
  }

  lemma ConsCovers(first: UsagePolicy, rest: seq<UsagePolicy>, bucket: string)
    ensures Covers([first] + rest, bucket) <==> first.bucket == bucket || Covers(rest, bucket)
  {
    if i :| 0 <= i < |rest| && rest[i].bucket == bucket { assert ([first] + rest)[i + 1].bucket == bucket; }
    if first.bucket == bucket { assert ([first] + rest)[0].bucket == bucket; }
  }

  /** Resolution succeeds exactly when each bucket has a default or a matching override of the unit. */
  lemma ResolvesExactlyWhenCovered(
    definition: FeatureDefinition, overrides: seq<UsagePolicy>, group: bool, trusted: bool, unit: UsageUnit)
    requires ValidDefinition(definition)
    ensures ResolveUsage(definition, overrides, group, trusted, unit).Success? <==>
      (unit.Requests? && definition.usagePolicy == MEDIA)
      || (Overrides(overrides, FeatureBucket(definition), unit) && Overrides(overrides, FamilyBucket(definition), unit))
  {
    var table := DefaultPolicies(definition, unit, group, trusted);
    DefaultsAreResolved(definition, unit, group, trusted);
    CoverageComesFrom(table, overrides, Buckets(definition), unit, FeatureBucket(definition));
    CoverageComesFrom(table, overrides, Buckets(definition), unit, FamilyBucket(definition));
    if unit.Requests? && definition.usagePolicy == MEDIA {
      assert table[0].bucket == FamilyBucket(definition) && table[1].bucket == FeatureBucket(definition);
    }
  }

  // ----- The runner's reservation -----

  /** Provider jobs are reserved under the shared media family only. */
  function ReservedPolicies(policies: seq<UsagePolicy>, provider: bool): seq<UsagePolicy> {
    if !provider || policies == [] then policies
    else
      var rest := ReservedPolicies(policies[..|policies| - 1], provider);
      if policies[|policies| - 1].bucket == MEDIA_BUCKET then rest + [policies[|policies| - 1]] else rest
  }

  /** One unit of each distinct policy unit, in order of first appearance. */
  function Estimates(policies: seq<UsagePolicy>): seq<UnitAmount> {
    if policies == [] then []
    else
      var rest := Estimates(policies[..|policies| - 1]);
      var last := UnitAmount(policies[|policies| - 1].unit, 1);
      if last in rest then rest else rest + [last]
  }

  predicate ValidBudgetRequest(id: string, policies: seq<UsagePolicy>, estimates: seq<UnitAmount>, deadline: real) {
    && TechnicalId(id)
    && estimates != [] && DistinctUnits(estimates)
    && (forall i :: 0 <= i < |estimates| ==> ValidAmount(estimates[i]) && estimates[i].amount > 0)
    && deadline > 0.0
    && (set i | 0 <= i < |estimates| :: estimates[i].unit) == (set i | 0 <= i < |policies| :: policies[i].unit)
  }

  /** What the runtime budgets additionally ask of the policies of a request. */
  predicate ReservablePolicies(policies: seq<UsagePolicy>) {
    && DistinctKeys(policies)
    && forall i :: 0 <= i < |policies| ==>
         && policies[i].limit <= MAX_EXACT_INTEGER && policies[i].burst <= MAX_EXACT_INTEGER
         && policies[i].concurrency <= MAX_EXACT_INTEGER && policies[i].window.seconds <= MAX_EXACT_INTEGER
  }

  lemma {:induction false} EstimatesOfOneUnit(policies: seq<UsagePolicy>, unit: UsageUnit)
    requires forall i :: 0 <= i < |policies| ==> policies[i].unit == unit
    ensures Estimates(policies) == if policies == [] then [] else [UnitAmount(unit, 1)]
  {
    if policies != [] { EstimatesOfOneUnit(policies[..|policies| - 1], unit); }
  }

  lemma {:induction false} ReservedPoliciesAre(policies: seq<UsagePolicy>, provider: bool)
    requires DistinctKeys(policies)
    ensures DistinctKeys(ReservedPolicies(policies, provider))
    ensures forall p :: p in ReservedPolicies(policies, provider) <==>
      p in policies && (provider ==> p.bucket == MEDIA_BUCKET)
  {
    if provider && policies != [] {
      var last := policies[|policies| - 1];
      var shorter := policies[..|policies| - 1];
      assert policies == shorter + [last];
      ReservedPoliciesAre(shorter, provider);
      var rest := ReservedPolicies(shorter, provider);
      forall i | 0 <= i < |rest| ensures !SameKey(rest[i], last) {
        assert rest[i] in shorter;
        var k :| 0 <= k < |shorter| && shorter[k] == rest[i];
        assert !SameKey(policies[k], policies[|policies| - 1]);
      }
    }
  }

  /**
   * The reservation the runner builds from resolved usage is well formed for every valid job, except a
   * provider job whose feature is outside the media family: its reservation would cover nothing.
   */
  lemma RunnerReservationIsValidExactly(
    envelope: JobEnvelope, definition: FeatureDefinition, policies: seq<UsagePolicy>, unit: UsageUnit, provider: bool)
    requires ValidEnvelope(envelope) && ValidDefinition(definition)
    requires Resolved(policies, Buckets(definition), unit) && AllCovered(policies, definition)
    ensures var reserved := ReservedPolicies(policies, provider);
      && DistinctKeys(reserved)
      && (ValidBudgetRequest(envelope.jobId, reserved, Estimates(reserved), envelope.deadline) <==>
            !provider || definition.usagePolicy == MEDIA)
  {
    ReservedPoliciesAre(policies, provider);
    ReservedIsEmptyExactly(definition, policies, unit, provider);
    var reserved := ReservedPolicies(policies, provider);
    forall i | 0 <= i < |reserved| ensures reserved[i].unit == unit {
      assert reserved[i] in policies;
    }
    OneUnitRequest(envelope, reserved, unit);
  }

  lemma {:induction false} OneUnitRequest(envelope: JobEnvelope, policies: seq<UsagePolicy>, unit: UsageUnit)
    requires ValidEnvelope(envelope) && forall i :: 0 <= i < |policies| ==> policies[i].unit == unit
    ensures ValidBudgetRequest(envelope.jobId, policies, Estimates(policies), envelope.deadline) <==> policies != []
  {
    EstimatesOfOneUnit(policies, unit);
    if policies != [] {
      var estimates := Estimates(policies);
      assert (set i | 0 <= i < |estimates| :: estimates[i].unit) == {unit} by { assert estimates[0].unit == unit; }
      assert (set i | 0 <= i < |policies| :: policies[i].unit) == {unit} by { assert policies[0].unit == unit; }
    }
  }

  lemma {:induction false} ReservedIsEmptyExactly(
    definition: FeatureDefinition, policies: seq<UsagePolicy>, unit: UsageUnit, provider: bool)
    requires Resolved(policies, Buckets(definition), unit) && AllCovered(policies, definition)
    ensures ReservedPolicies(policies, provider) == [] <==> provider && definition.usagePolicy != MEDIA
  {
    hide Buckets, ValidPolicy;
    ReservedPoliciesAre(policies, provider);
    var reserved := ReservedPolicies(policies, provider);
    if reserved != [] {
      assert reserved[0] in policies && (provider ==> reserved[0].bucket == MEDIA_BUCKET);
    }
    MediaBucketIsTheFamily(definition);
    FamilyIsABucket(definition);
    assert Covers(policies, FamilyBucket(definition));
    var k :| 0 <= k < |policies| && policies[k].bucket == FamilyBucket(definition);
    if !provider || definition.usagePolicy == MEDIA {
      assert policies[k] in reserved;
    }
  }

  lemma FamilyIsABucket(definition: FeatureDefinition)
    ensures FamilyBucket(definition) in Buckets(definition)
  {
  }

  lemma MediaBucketIsTheFamily(definition: FeatureDefinition)
    ensures MEDIA_BUCKET in Buckets(definition) <==> definition.usagePolicy == MEDIA
    ensures FamilyBucket(definition) == MEDIA_BUCKET <==> definition.usagePolicy == MEDIA
  {
    assert FamilyBucket(definition)[7..] == definition.usagePolicy;
    assert MEDIA_BUCKET == "family:" + MEDIA;
    assert MEDIA_BUCKET[7..] == MEDIA;
    assert FeatureBucket(definition)[1] == 'e' && MEDIA_BUCKET[1] == 'a';
  }

  // ----- The runner's settlement -----

  function Charges(policies: seq<UsagePolicy>): (charges: seq<UsageCharge>)
    ensures |charges| == |policies|
    ensures forall i :: 0 <= i < |charges| ==>
      charges[i] == UsageCharge(policies[i].bucket, 1, policies[i].unit, policies[i].window)
  {
    if policies == [] then []
    else
      var last := policies[|policies| - 1];
      Charges(policies[..|policies| - 1]) + [UsageCharge(last.bucket, 1, last.unit, last.window)]
  }

  function RunnerIntent(envelope: JobEnvelope, policies: seq<UsagePolicy>, now: real): SettlementIntent {
    ChargedIntent(envelope, Charges(policies), now)
  }

  /** The ledger takes a charge only for a bucket some registered feature backs in that unit. */
  predicate SupportedCharge(registry: seq<FeatureDefinition>, charge: UsageCharge) {
    if "feature:" <= charge.bucket then
      exists i :: 0 <= i < |registry| && registry[i].key == charge.bucket[8..] && charge.unit in registry[i].units
    else
      "family:" <= charge.bucket &&
      exists i :: 0 <= i < |registry|
        && registry[i].usagePolicy == charge.bucket[7..] && charge.unit in registry[i].units
  }

  /** Usage resolved for a registered feature in one of its units is never refused as unsupported. */
  lemma {:induction false} ResolvedChargesAreSupported(
    registry: seq<FeatureDefinition>, definition: FeatureDefinition, policies: seq<UsagePolicy>, unit: UsageUnit)
    requires definition in registry && unit in definition.units
    requires Resolved(policies, Buckets(definition), unit)
    ensures forall i :: 0 <= i < |policies| ==> SupportedCharge(registry, Charges(policies)[i])
  {
    forall i | 0 <= i < |policies| ensures SupportedCharge(registry, Charges(policies)[i]) {
      RegisteredBucketIsSupported(registry, definition, Charges(policies)[i]);
    }
  }

  lemma {:induction false} RegisteredBucketIsSupported(
    registry: seq<FeatureDefinition>, definition: FeatureDefinition, charge: UsageCharge)
    requires definition in registry && charge.unit in definition.units && charge.bucket in Buckets(definition)
    ensures SupportedCharge(registry, charge)
  {
    var k :| 0 <= k < |registry| && registry[k] == definition;
    if charge.bucket == FeatureBucket(definition) {
      assert charge.bucket[8..] == registry[k].key;
    } else {
      assert charge.bucket[7..] == registry[k].usagePolicy;
      assert charge.bucket[1] == 'a';
    }
  }

  /** The bounds a receipt adds to what resolution already guarantees. */
  predicate Chargeable(policies: seq<UsagePolicy>) {
    && |policies| <= MAX_USAGE_BATCH
    && forall i :: 0 <= i < |policies| ==>
         |policies[i].bucket| <= MAX_BUCKET_LENGTH && policies[i].window.seconds <= MAX_ACCOUNTING_INTEGER
  }

  lemma EnvelopeIsChargeable(envelope: JobEnvelope)
    requires ValidEnvelope(envelope)
    ensures EventId(envelope.jobId)
    ensures ValidSubject(AccountingSubject(envelope.chargedKind, envelope.chargedTelegramId))
  {
  }

  lemma ChargesAreDistinct(policies: seq<UsagePolicy>)
    requires DistinctKeys(policies)
    ensures DistinctDimensions(Charges(policies))
  {
    var charges := Charges(policies);
    forall i, j | 0 <= i < j < |charges| ensures ChargeDimension(charges[i]) != ChargeDimension(charges[j]) {
      assert !SameKey(policies[i], policies[j]);
    }
  }

  /**
   * The receipt built from resolved usage passes every validator exactly when it is within the ledger's
   * bounds and counts requests: no override list can make it ambiguous, unscoped or misdirected.
   */
  lemma RunnerSettlementIsValidExactly(
    envelope: JobEnvelope, definition: FeatureDefinition, policies: seq<UsagePolicy>, unit: UsageUnit, now: real)
    requires ValidEnvelope(envelope) && ValidDefinition(definition)
    requires Resolved(policies, Buckets(definition), unit) && AllCovered(policies, definition)
    ensures ValidIntent(RunnerIntent(envelope, policies, now)) <==>
      unit.Requests? && Chargeable(policies) && 0 <= now.Floor <= MAX_ACCOUNTING_INTEGER
  {
    hide ValidEnvelope, EventId, ValidSubject, Covers;
    EnvelopeIsChargeable(envelope);
    ChargesAreDistinct(policies);
    CoveredIsNotEmpty(policies, definition);
    var intent := RunnerIntent(envelope, policies, now);
    assert intent.actual[0].amount != 0;
    assert intent.actual[..0] == [];
    assert Amounts(intent.actual) == map[Requests := 1];
    var charges := Charges(policies);
    assert charges[0].unit == unit;
    EventIsValidExactly(envelope, policies, now);
  }

  lemma CoveredIsNotEmpty(policies: seq<UsagePolicy>, definition: FeatureDefinition)
    requires AllCovered(policies, definition)
    ensures policies != []
  {
    assert Covers(policies, FamilyBucket(definition));
  }

  lemma EventIsValidExactly(envelope: JobEnvelope, policies: seq<UsagePolicy>, now: real)
    requires ValidEnvelope(envelope) && policies != [] && DistinctKeys(policies) && AllValidPolicies(policies)
    ensures ValidEvent(RunnerIntent(envelope, policies, now).event.value) <==>
      Chargeable(policies) && 0 <= now.Floor <= MAX_ACCOUNTING_INTEGER
  {
    hide ValidEnvelope, EventId, ValidSubject, ScopedBucket;
    EnvelopeIsChargeable(envelope);
    ChargesAreDistinct(policies);
    var charges := Charges(policies);
    if ValidEvent(RunnerIntent(envelope, policies, now).event.value) {
      forall i | 0 <= i < |policies|
        ensures |policies[i].bucket| <= MAX_BUCKET_LENGTH && policies[i].window.seconds <= MAX_ACCOUNTING_INTEGER
      {
        assert ValidCharge(charges[i]);
      }
    }
  }

  /**
   * After a confirmed delivery the ticket takes the settlement exactly when the receipt is valid and its
   * second lies between the seconds of acceptance and deadline; otherwise the job stays uncertain.
   */
  lemma DeliveredJobSettlesExactly(r: AdmissionRecord, policies: seq<UsagePolicy>, now: real)
    requires Sound(r) && r.state.DeliveryUncertain? && r.budgetReserved
    ensures var intent := RunnerIntent(r.envelope, policies, now);
      var change := Transact(r, Prepare(r.token, intent));
      if ValidIntent(intent) && r.envelope.acceptedAt.Floor <= now.Floor <= r.envelope.deadline.Floor
      then change.Change? && change.write && change.record == Some(r.(state := Settling, settlement := Some(intent)))
      else change == Raised(InvalidRequest)
  {
    hide ValidIntent, ValidEnvelope;
  }

  // ----- What stored overrides can hold -----

  const MAX_STORED_INTEGER: int := 0x7FFF_FFFF

  predicate FitsColumns(policy: UsagePolicy) {
    && policy.limit <= MAX_STORED_INTEGER && policy.burst <= MAX_STORED_INTEGER
    && policy.concurrency <= MAX_STORED_INTEGER && policy.window.seconds <= MAX_STORED_INTEGER
  }

  /** Override columns are 32-bit integers and a bucket of at most 160 characters. */
  predicate Storable(policy: UsagePolicy) {
    FitsColumns(policy) && |policy.bucket| <= MAX_BUCKET_LENGTH
  }

  predicate AllStorable(policies: seq<UsagePolicy>) {
    forall i :: 0 <= i < |policies| ==> Storable(policies[i])
  }

  lemma {:induction false} OverriddenComesFrom(
    table: seq<UsagePolicy>, overrides: seq<UsagePolicy>, buckets: set<string>, unit: UsageUnit, policy: UsagePolicy)
    requires policy in Overridden(table, overrides, buckets, unit)
    ensures policy in table || policy in overrides
    decreases |overrides|
  {
    if overrides != [] {
      var shorter := overrides[..|overrides| - 1];
      var last := overrides[|overrides| - 1];
      var before := Overridden(table, shorter, buckets, unit);
      if policy !in before {
        PutAddsOnly(before, last, policy);
      } else {
        OverriddenComesFrom(table, shorter, buckets, unit, policy);
      }
    }
  }

  lemma {:induction false} PutAddsOnly(table: seq<UsagePolicy>, added: UsagePolicy, policy: UsagePolicy)
    requires policy in Put(table, added)
    ensures policy in table || policy == added
  {
    if table != [] && !SameKey(table[0], added) && policy != table[0] { PutAddsOnly(table[1..], added, policy); }
  }

  lemma {:induction false} ResolvedFitsCounters(
    definition: FeatureDefinition, overrides: seq<UsagePolicy>, group: bool, trusted: bool, unit: UsageUnit)
    requires AllStorable(overrides)
    ensures var table := DefaultPolicies(definition, unit, group, trusted);
      var policies := Overridden(table, overrides, Buckets(definition), unit);
      forall i :: 0 <= i < |policies| ==> FitsColumns(policies[i])
  {
    hide Buckets;
    var table := DefaultPolicies(definition, unit, group, trusted);
    var policies := Overridden(table, overrides, Buckets(definition), unit);
    forall i | 0 <= i < |policies| ensures FitsColumns(policies[i]) {
      OverriddenComesFrom(table, overrides, Buckets(definition), unit, policies[i]);
      if policies[i] in overrides {
        var k :| 0 <= k < |overrides| && overrides[k] == policies[i];
        assert Storable(overrides[k]);
      }
    }
  }

  /**
   * Whatever overrides the database holds, the runner's reservation for a valid job passes both its own
   * validators and those of the runtime counters, except for a provider job outside the media family.
   */
  lemma {:induction false} RunnerReservationIsAcceptedExactly(
    envelope: JobEnvelope, definition: FeatureDefinition, overrides: seq<UsagePolicy>, group: bool, trusted: bool,
    unit: UsageUnit, provider: bool)
    requires ValidEnvelope(envelope) && ValidDefinition(definition)
    requires AllValidPolicies(overrides) && AllStorable(overrides)
    requires ResolveUsage(definition, overrides, group, trusted, unit).Success?
    ensures var reserved := ReservedPolicies(ResolveUsage(definition, overrides, group, trusted, unit).value, provider);
      && ReservablePolicies(reserved)
      && (ValidBudgetRequest(envelope.jobId, reserved, Estimates(reserved), envelope.deadline) <==>
            !provider || definition.usagePolicy == MEDIA)
  {
    hide ValidEnvelope, ValidPolicy, Buckets, Covers, ValidBudgetRequest;
    var policies := ResolveUsage(definition, overrides, group, trusted, unit).value;
    ResolvedUsageIsSound(definition, overrides, group, trusted, unit);
    ResolvedFitsCounters(definition, overrides, group, trusted, unit);
    assert policies
      == Overridden(DefaultPolicies(definition, unit, group, trusted), overrides, Buckets(definition), unit);
    hide ResolveUsage, Overridden, FitsColumns;
    RunnerReservationIsValidExactly(envelope, definition, policies, unit, provider);
    ReservedStaySmall(policies, provider);
  }

  lemma {:induction false} ReservedStaySmall(policies: seq<UsagePolicy>, provider: bool)
    requires DistinctKeys(policies) && forall i :: 0 <= i < |policies| ==> FitsColumns(policies[i])
    ensures ReservablePolicies(ReservedPolicies(policies, provider))
  {
    ReservedPoliciesAre(policies, provider);
    var reserved := ReservedPolicies(policies, provider);
    forall i | 0 <= i < |reserved| ensures FitsColumns(reserved[i]) {
      assert reserved[i] in policies;
    }
  }

  // ----- Every registered feature can be reserved -----

  const PROVIDERS: set<string> :=
    {"twitter", "instagram", "tiktok", "threads", "bluesky", "facebook", "youtube", "reddit"}

  /** The registered feature for a provider's videos or its posts; all of them count media requests. */
  function Capture(provider: string, isVideo: bool): FeatureDefinition {
    FeatureDefinition(provider + (if isVideo then "_video" else "_post"), MEDIA, {Requests})
  }

  predicate Registered(definition: FeatureDefinition) {
    exists provider, isVideo :: provider in PROVIDERS && definition == Capture(provider, isVideo)
  }

  /**
   * Whatever overrides the database holds, usage of a registered feature always resolves, and the runner's
   * reservation for any valid job passes its own validators and those of the runtime counters, whether it
   * covers the whole usage or, as for a provider job, the media family alone.
   */
  lemma {:induction false} RegisteredFeaturesAlwaysReserve(
    envelope: JobEnvelope, definition: FeatureDefinition, overrides: seq<UsagePolicy>, group: bool, trusted: bool,
    provider: bool)
    requires ValidEnvelope(envelope) && Registered(definition)
    requires AllValidPolicies(overrides) && AllStorable(overrides)
    ensures var resolved := ResolveUsage(definition, overrides, group, trusted, Requests);
      && resolved.Success?
      && var reserved := ReservedPolicies(resolved.value, provider);
         && ReservablePolicies(reserved)
         && ValidBudgetRequest(envelope.jobId, reserved, Estimates(reserved), envelope.deadline)
  {
    hide ValidEnvelope, ReservablePolicies, ValidBudgetRequest, ResolveUsage, AllValidPolicies, AllStorable;
    ResolvesExactlyWhenCovered(definition, overrides, group, trusted, Requests);
    RunnerReservationIsAcceptedExactly(envelope, definition, overrides, group, trusted, Requests, provider);
  }

  // ----- Usage that resolves but cannot be settled -----

  function Override(bucket: string, seconds: int): UsagePolicy {
    UsagePolicy(bucket, 6, 3, 1, 10, Requests, UsageWindow(seconds))
  }

  const VIDEO := Capture("tiktok", true)

  /** One override of the media family for each window length from 61 seconds on. */
  function WindowOverrides(n: nat): (overrides: seq<UsagePolicy>)
    ensures |overrides| == n
    ensures forall i :: 0 <= i < n ==> overrides[i] == Override(MEDIA_BUCKET, 61 + i)
  {
    if n == 0 then [] else WindowOverrides(n - 1) + [Override(MEDIA_BUCKET, 61 + n - 1)]
  }

  lemma {:induction false} PutAppends(table: seq<UsagePolicy>, policy: UsagePolicy)
    requires forall i :: 0 <= i < |table| ==> !SameKey(table[i], policy)
    ensures Put(table, policy) == table + [policy]
  {
    if table != [] { PutAppends(table[1..], policy); }
  }

  lemma {:induction false} NewWindowsAreAdded(table: seq<UsagePolicy>, buckets: set<string>, n: nat)
    requires MEDIA_BUCKET in buckets && forall i :: 0 <= i < |table| ==> table[i].window.seconds <= 60
    ensures Overridden(table, WindowOverrides(n), buckets, Requests) == table + WindowOverrides(n)
  {
    var overrides := WindowOverrides(n);
    if n > 0 {
      var shorter := WindowOverrides(n - 1);
      assert overrides[..n - 1] == shorter;
      NewWindowsAreAdded(table, buckets, n - 1);
      PutAppends(table + shorter, overrides[n - 1]);
      assert table + shorter + [overrides[n - 1]] == table + overrides;
    }
  }

  lemma ManyWindowsResolve()
    ensures var overrides := WindowOverrides(255);
      var resolved := ResolveUsage(VIDEO, overrides, false, false, Requests);
      && Registered(VIDEO) && AllValidPolicies(overrides) && AllStorable(overrides)
      && resolved.Success? && |resolved.value| == 257
  {
    assert "tiktok" in PROVIDERS;
    assert FamilyBucket(VIDEO) == MEDIA_BUCKET;
    assert ScopedBucket(MEDIA_BUCKET);
    hide ScopedBucket, FamilyBucket, FeatureBucket, Overridden;
    NewWindowsAreAdded(DefaultPolicies(VIDEO, Requests, false, false), Buckets(VIDEO), 255);
    ResolvesExactlyWhenCovered(VIDEO, WindowOverrides(255), false, false, Requests);
  }

  /**
   * Overrides for enough window lengths resolve and can be reserved, but the receipt of the delivered job
   * charges more windows than a batch holds: its settlement is refused and the job stays uncertain.
   */
  lemma ManyWindowsCannotSettle(now: real)
    ensures var overrides := WindowOverrides(255);
      && Registered(VIDEO) && AllValidPolicies(overrides) && AllStorable(overrides)
      && var resolved := ResolveUsage(VIDEO, overrides, false, false, Requests);
         && resolved.Success? && |resolved.value| == 257
         && !ValidIntent(RunnerIntent(SAMPLE_ENVELOPE, resolved.value, now))
  {
    var overrides := WindowOverrides(255);
    SampleEnvelopeIsValid();
    ManyWindowsResolve();
    hide ValidEnvelope, ValidIntent, WindowOverrides, ResolveUsage, ScopedBucket, AllStorable;
    ResolvedUsageIsSound(VIDEO, overrides, false, false, Requests);
    RunnerSettlementIsValidExactly(
      SAMPLE_ENVELOPE, VIDEO, ResolveUsage(VIDEO, overrides, false, false, Requests).value, Requests, now);
  }

  /** The delivered job of that usage can never be settled: each attempt raises and it stays uncertain. */
  lemma ManyWindowsStayUncertain(r: AdmissionRecord, now: real)
    requires Sound(r) && r.state.DeliveryUncertain? && r.budgetReserved && r.envelope == SAMPLE_ENVELOPE
    ensures var policies := ResolveUsage(VIDEO, WindowOverrides(255), false, false, Requests);
      policies.Success?
      && Transact(r, Prepare(r.token, RunnerIntent(r.envelope, policies.value, now))) == Raised(InvalidRequest)
  {
    hide Sound, Transact, ValidIntent, ResolveUsage, WindowOverrides, RunnerIntent;
    ManyWindowsCannotSettle(now);
    DeliveredJobSettlesExactly(r, ResolveUsage(VIDEO, WindowOverrides(255), false, false, Requests).value, now);
  }

  // ----- The defaults -----

  /** One policy a minute for requests. */
  function PerMinute(bucket: string, limit: int, burst: int, concurrency: int, pending: int): UsagePolicy {
    UsagePolicy(bucket, limit, burst, concurrency, pending, Requests, UsageWindow(60))
  }

  /**
   * Without overrides a registered feature is limited alike in its family and on its own: six requests a minute
   * for an ordinary user, twelve for a trusted one or a group, and a group may have more of them waiting.
   */
  lemma {:induction false} DefaultUsage(definition: FeatureDefinition, group: bool, trusted: bool)
    requires Registered(definition)
    ensures var resolved := ResolveUsage(definition, [], group, trusted, Requests);
      && resolved.Success?
      && resolved.value
         == var own := FeatureBucket(definition);
            if group then [PerMinute(MEDIA_BUCKET, 12, 6, 2, 25), PerMinute(own, 12, 6, 2, 25)]
            else if trusted then [PerMinute(MEDIA_BUCKET, 12, 6, 2, 10), PerMinute(own, 12, 6, 2, 10)]
            else [PerMinute(MEDIA_BUCKET, 6, 3, 1, 10), PerMinute(own, 6, 3, 1, 10)]
  {
    MediaBucketIsTheFamily(definition);
    ResolvesExactlyWhenCovered(definition, [], group, trusted, Requests);
  }

  /** A definition of the registry backs the charge in its unit. */
  predicate Backs(definition: FeatureDefinition, charge: UsageCharge) {
    && charge.unit in definition.units
    && (charge.bucket == FeatureBucket(definition) || charge.bucket == FamilyBucket(definition))
  }

  /** A charge is supported exactly when a registered feature, or one of its family, backs it in its unit. */
  lemma {:induction false} SupportedExactly(registry: seq<FeatureDefinition>, charge: UsageCharge)
    ensures SupportedCharge(registry, charge) <==> exists i :: 0 <= i < |registry| && Backs(registry[i], charge)
  {
    if i :| 0 <= i < |registry| && Backs(registry[i], charge) {
      if charge.bucket == FeatureBucket(registry[i]) {
        assert charge.bucket[8..] == registry[i].key;
      } else {
        assert charge.bucket[7..] == registry[i].usagePolicy;
        assert charge.bucket[1] == 'a';
      }
    }
    if SupportedCharge(registry, charge) {
      if "feature:" <= charge.bucket {
        var i :| 0 <= i < |registry| && registry[i].key == charge.bucket[8..] && charge.unit in registry[i].units;
        assert charge.bucket == "feature:" + charge.bucket[8..];
        assert Backs(registry[i], charge);
      } else {
        var i :| 0 <= i < |registry|
          && registry[i].usagePolicy == charge.bucket[7..] && charge.unit in registry[i].units;
        assert charge.bucket == "family:" + charge.bucket[7..];
        assert Backs(registry[i], charge);
      }
    }
  }
}
