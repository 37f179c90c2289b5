/** Accounting dimensions and the validators every charge, event and amount must pass. */
module Usage {
  import opened Wrappers

  const MAX_EXACT_INTEGER: int := 0x1F_FFFF_FFFF_FFFF
  const MAX_ACCOUNTING_INTEGER: int := 0x7FFF_FFFF_FFFF_FFFF
  const MAX_USAGE_BATCH := 256
  const MAX_BUCKET_LENGTH := 160
  const MINUTE_SECONDS := 60

  datatype TargetKind = User | Group

  datatype UsageUnit = Requests | ResourceUnits | Tokens

  datatype UsageWindow = UsageWindow(seconds: int)

  predicate ValidWindow(window: UsageWindow) {
    window.seconds > 0
  }

  /** The start of the fixed window holding a timestamp. */
  function WindowStart(window: UsageWindow, timestamp: int): int
    requires ValidWindow(window) && timestamp >= 0
  {
    timestamp - timestamp % window.seconds
  }

  predicate TechnicalChar(c: char) {
    'A' <= c <= 'Z' || 'a' <= c <= 'z' || '0' <= c <= '9' || c == '_' || c == '.' || c == '-'
  }

  /** Reservation, job and owner identities. */
  predicate TechnicalId(id: string) {
    1 <= |id| <= 96 && forall i :: 0 <= i < |id| ==> TechnicalChar(id[i])
  }

  predicate EventId(id: string) {
    1 <= |id| <= 128 && forall i :: 0 <= i < |id| ==> TechnicalChar(id[i]) || id[i] == ':'
  }

  /** A bucket names a feature or a family, and the name is not empty. */
  predicate ScopedBucket(bucket: string) {
    ("feature:" <= bucket && |bucket| > |"feature:"|) || ("family:" <= bucket && |bucket| > |"family:"|)
  }

  datatype AccountingSubject = AccountingSubject(kind: TargetKind, telegramId: int)

  predicate ValidSubject(subject: AccountingSubject) {
    && subject.telegramId != 0
    && -MAX_ACCOUNTING_INTEGER <= subject.telegramId <= MAX_ACCOUNTING_INTEGER
    && (subject.kind.User? <==> subject.telegramId > 0)
  }

  datatype UsageCharge = UsageCharge(bucket: string, amount: int, unit: UsageUnit, window: UsageWindow)

  predicate ValidCharge(charge: UsageCharge) {
    && 0 < charge.amount <= MAX_ACCOUNTING_INTEGER
    && ScopedBucket(charge.bucket)
    && |charge.bucket| <= MAX_BUCKET_LENGTH
    && 0 < charge.window.seconds <= MAX_ACCOUNTING_INTEGER
  }

  datatype UsageEvent = UsageEvent(
    eventId: string, subject: AccountingSubject, occurredAt: int, charges: seq<UsageCharge>)

  /** One bucket, unit and window length: the dimension an event may charge at most once. */
  datatype Dimension = Dimension(bucket: string, unit: UsageUnit, seconds: int)

  function ChargeDimension(charge: UsageCharge): Dimension {
    Dimension(charge.bucket, charge.unit, charge.window.seconds)
  }

  predicate DistinctDimensions(charges: seq<UsageCharge>) {
    forall i, j :: 0 <= i < j < |charges| ==> ChargeDimension(charges[i]) != ChargeDimension(charges[j])
  }

  predicate ValidEvent(event: UsageEvent) {
    && EventId(event.eventId)
    && ValidSubject(event.subject)
    && 0 < |event.charges| <= MAX_USAGE_BATCH
    && 0 <= event.occurredAt <= MAX_ACCOUNTING_INTEGER
    && DistinctDimensions(event.charges)
    && forall i :: 0 <= i < |event.charges| ==> ValidCharge(event.charges[i])
  }

  datatype UnitAmount = UnitAmount(unit: UsageUnit, amount: int)

  predicate ValidAmount(item: UnitAmount) {
    0 <= item.amount <= MAX_EXACT_INTEGER
  }

  predicate DistinctUnits(items: seq<UnitAmount>) {
    forall i, j :: 0 <= i < j < |items| ==> items[i].unit != items[j].unit
  }

  /** The amounts keyed by unit; the last entry wins, as in a dictionary display. */
  function Amounts(items: seq<UnitAmount>): map<UsageUnit, int> {
    if items == [] then map[] else Amounts(items[..|items| - 1])[items[|items| - 1].unit := items[|items| - 1].amount]
  }

  predicate AnyConsumed(items: seq<UnitAmount>) {
    exists i :: 0 <= i < |items| && items[i].amount != 0
  }
}
