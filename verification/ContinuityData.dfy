/** continuity.js and offline-policy.js: the rows of the continuity tables and the values they hold. */
module ContinuityData {
  import opened Options
  import opened Text
  import Digits

  datatype Operation =
    | SessionStart | SessionPause | SessionResume | SessionEnd
    | OrderCreate | CheckCreate | CheckUpdate | CashPayment
    | Uncertified(name: string)

  predicate Certified(op: Operation) {
    !op.Uncertified?
  }

  /** NEVER_AUTO_MERGE */
  predicate NeverAutoMerge(op: Operation) {
    op.CashPayment?
    || (op.Uncertified? && op.name in {"CARD_PAYMENT", "REFUND", "STORED_VALUE", "CASH_CLOSE", "FISCAL_ISSUE"})
  }

  function RequiredPermission(op: Operation): string {
    match op
    case SessionStart | SessionPause | SessionResume | SessionEnd => "session.write"
    case OrderCreate => "order.write"
    case _ => "checkout.write"
  }

  /** The member names that the engine reads or writes; any other name is carried along. */
  datatype Field =
    | Id | ResourceId | Status | StartedAt | Version | PendingCloud | PausedAt | FinishedAt
    | OperatorUserId | IsActive | Role | Permissions
    | AmountMinor | Currency | SettlementId | Allocations | SnapshotId | Amount
    | Other(name: string)

  /** JSON values; Fractional carries the text of a number that is not an integer. */
  datatype Value =
    | Null | Bool(b: bool) | Num(n: int) | Fractional(text: string) | Str(s: string)
    | List(items: seq<Value>) | Record(fields: map<Field, Value>)

  type Payload = map<Field, Value>

  datatype Kind = Venue | Device | Operator | Resource | Rate | Catalog | Check | Session | Kds | Order

  datatype CacheRow = CacheRow(version: Option<int>, payload: Payload)

  type Cache = map<(Kind, string), CacheRow>

  datatype CommandState = Pending | Retry | Synced | Conflict | DeadLetter

  datatype Command = Command(
    operationId: string, deviceId: string, venueId: string, localSequence: nat, idempotencyKey: string,
    operation: Operation, aggregateType: string, aggregateId: string, aggregateVersion: Option<int>,
    payload: Payload, occurredAt: string, state: CommandState, attempts: nat)

  datatype LedgerRow = LedgerRow(
    venueId: string, settlementId: string, amountMinor: nat, currency: string,
    operatorUserId: string, occurredAt: string, synced: bool)

  datatype Resolution = AutoMerge | Manual(note: string)

  datatype ConflictRow = ConflictRow(conflictClass: string, code: string, resolution: Option<Resolution>)

  datatype Tables = Tables(
    shopId: Option<string>, cache: Cache, commands: seq<Command>,
    ledger: map<string, LedgerRow>, conflicts: map<string, ConflictRow>)

  datatype Fault =
    | OfflineUnsupported | MissingField | TenantConflict | NotUuid | HashMismatch | BadDate
    | IdempotencyConflict | PermissionDenied | ResourceConflict | StateConflict | VersionConflict
    | CurrencyConflict | AmountInvalid | AmountConflict | UniqueViolation
    | ConflictNotFound | FinancialManualReview

  /** String(value ?? '') */
  function TextOf(v: Value): string
    decreases v, 0
  {
    match v
    case Null => ""
    case Bool(b) => if b then "true" else "false"
    case Num(n) => Digits.IntText(n)
    case Fractional(text) => text
    case Str(s) => s
    case List(items) => JoinText(items)
    case Record(_) => "[object Object]"
  }

  function JoinText(items: seq<Value>): string
    decreases items, 0
  {
    if items == [] then ""
    else if |items| == 1 then TextOf(items[0])
    else TextOf(items[0]) + "," + JoinText(items[1..])
  }

  predicate Truthy(v: Value) {
    match v
    case Null => false
    case Bool(b) => b
    case Num(n) => n != 0
    case Str(s) => s != ""
    case _ => true
  }

  function FieldText(p: Payload, f: Field): string {
    if f in p then TextOf(p[f]) else ""
  }

  /** The trimmed text of a required field; "" when it is missing. */
  function Required(p: Payload, f: Field): string {
    Trim(FieldText(p, f))
  }

  /** cache(kind, id): the payload with the version column laid over it. */
  function Cached(row: CacheRow): Payload {
    row.payload[Version := if row.version.Some? then Num(row.version.value)
                           else if Version in row.payload then row.payload[Version] else Null]
  }

  function VersionOf(p: Payload): int {
    if Version in p && p[Version].Num? then p[Version].n else 0
  }

  /** conflictClass */
  function ConflictClass(op: Operation, code: string): string {
    if NeverAutoMerge(op) then "FINANCIAL_MANUAL_REVIEW"
    else if code == "RESOURCE_CONFLICT" then "RESOURCE_OPERATOR_RESOLUTION"
    else if code == "VERSION_CONFLICT" then "STALE_AGGREGATE_OPERATOR_RESOLUTION"
    else if code == "RESERVATION_CONFLICT" then "RESERVATION_OPERATOR_RESOLUTION"
    else if code == "INVENTORY_CONFLICT" then "INVENTORY_OPERATOR_RESOLUTION"
    else "OPERATOR_RESOLUTION"
  }
}
