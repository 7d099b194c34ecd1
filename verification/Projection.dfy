/** continuity.js, assertOperatorPermission and applyLocalProjection: what one command does to the cache and the
    ledger. */
module Projection {
  import opened Options
  import opened Text
  import opened ContinuityData
  import MinorUnits

  const ACTIVE := "ACTIVE"
  const PAUSED := "PAUSED"
  const FINISHED := "FINISHED"

  datatype Projected = Projected(cache: Cache, ledger: map<string, LedgerRow>) | Failed(fault: Fault)

  function SplitComma(s: string): (parts: seq<string>) {
    if s == "" then [""]
    else
      var rest := SplitComma(s[1..]);
      if s[0] == ',' then [""] + rest
      else if rest == [] then [[s[0]]]
      else [[s[0]] + rest[0]] + rest[1..]
  }

  /** None when the operator may issue the operation. */
  function PermissionFault(cache: Cache, op: Operation, payload: Payload): Option<Fault> {
    var operatorId := Required(payload, OperatorUserId);
    if operatorId == "" then Some(MissingField)
    else if (Operator, operatorId) !in cache then Some(PermissionDenied)
    else
      var operator := cache[(Operator, operatorId)].payload;
      if IsActive in operator && operator[IsActive] == Bool(false) then Some(PermissionDenied)
      else if Role in operator && operator[Role] == Str("OWNER") then None
      else
        var parts := SplitComma(FieldText(operator, Permissions));
        if exists i | 0 <= i < |parts| :: Trim(parts[i]) == "*" || Trim(parts[i]) == RequiredPermission(op) then None
        else Some(PermissionDenied)
  }

  predicate Live(p: Payload) {
    Status in p && (p[Status] == Str(ACTIVE) || p[Status] == Str(PAUSED))
  }

  /** Some cached session is live on exactly this resource id. */
  predicate Occupied(cache: Cache, resourceId: string) {
    exists k | k in cache :: k.0.Session? && Live(cache[k].payload) && ResourceId in cache[k].payload
                             && cache[k].payload[ResourceId] == Str(resourceId)
  }

  function StartSession(cache: Cache, aggregateId: string, payload: Payload,
      occurredAt: string): (r: (Cache, Option<Fault>))
  {
    var resourceId := Required(payload, ResourceId);
    if resourceId == "" then (cache, Some(MissingField))
    else if (Resource, resourceId) !in cache then (cache, Some(ResourceConflict))
    else if FieldText(cache[(Resource, resourceId)].payload, Status) in {"MAINTENANCE", "DISABLED"} then
        (cache, Some(ResourceConflict))
    else if Occupied(cache, resourceId) then (cache, Some(ResourceConflict))
    else
      var session := map[Id := Str(aggregateId), ResourceId := Str(resourceId), Status := Str(ACTIVE),
                         StartedAt := Str(occurredAt), Version := Num(1), PendingCloud := Bool(true)] + payload;
      (cache[(Session, aggregateId) := CacheRow(Some(1), session)], None)
  }

  /** command.aggregateVersion && current.version !== command.aggregateVersion */
  predicate StaleVersion(expected: Option<int>, current: Payload) {
    expected.Some? && expected.value != 0 && !(Version in current && current[Version] == Num(expected.value))
  }

  function NextStatus(op: Operation): string {
    if op.SessionPause? then PAUSED else if op.SessionResume? then ACTIVE else FINISHED
  }

  function MoveSession(cache: Cache, op: Operation, aggregateId: string, expected: Option<int>,
      occurredAt: string): (r: (Cache, Option<Fault>))
  {
    if (Session, aggregateId) !in cache then (cache, Some(StateConflict))
    else
      var current := Cached(cache[(Session, aggregateId)]);
      if StaleVersion(expected, current) then (cache, Some(VersionConflict))
      else
        var version := VersionOf(current) + 1;
        var stamp := if op.SessionPause? then map[PausedAt := Str(occurredAt)]
                     else if op.SessionResume? then map[PausedAt := Null]
                     else map[FinishedAt := Str(occurredAt)];
        var session := current + map[Status := Str(NextStatus(op)), Version := Num(version)] + stamp
            + map[PendingCloud := Bool(true)];
        (cache[(Session, aggregateId) := CacheRow(Some(version), session)], None)
  }

  datatype Total = Sum(minor: nat) | BadAllocation(fault: Fault)

  function AddAllocation(before: Total, allocation: Value, currency: string): Total {
    if before.BadAllocation? then before
    else if !allocation.Record? then BadAllocation(AmountInvalid)
    else if Required(allocation.fields, SnapshotId) == "" then BadAllocation(MissingField)
    else
      match MinorUnits.DecimalToMinor(FieldText(allocation.fields, Amount), currency)
      case Minor(units) => Sum(before.minor + units)
      case Missing => BadAllocation(MissingField)
      case _ => BadAllocation(AmountInvalid)
  }

  /** The exact total of the allocations in minor units, added from left to right. */
  function AllocationTotal(items: seq<Value>, currency: string): Total {
    if items == [] then Sum(0)
    else AddAllocation(AllocationTotal(items[..|items| - 1], currency), items[|items| - 1], currency)
  }

  /** The currency of the cached venue, if it names one. */
  function VenueCurrency(cache: Cache, venueId: string): Option<string> {
    if (Venue, venueId) in cache && Currency in cache[(Venue, venueId)].payload
       && Truthy(cache[(Venue, venueId)].payload[Currency])
    then Some(Upper(FieldText(cache[(Venue, venueId)].payload, Currency))) else None
  }

  function CashLine(cache: Cache, venueId: string, payload: Payload,
      occurredAt: string): (r: (LedgerRow, Option<Fault>))
  {
    var currency := Upper(Required(payload, Currency));
    var settlementId := Required(payload, SettlementId);
    var operatorId := Required(payload, OperatorUserId);
    var none := LedgerRow("", "", 0, "", "", "", false);
    if !(AmountMinor in payload && payload[AmountMinor].Num? && payload[AmountMinor].n > 0) then
        (none, Some(AmountInvalid))
    else if currency == "" || settlementId == "" || operatorId == "" then (none, Some(MissingField))
    else if VenueCurrency(cache, venueId) !in {None, Some(currency)} then
        (none, Some(CurrencyConflict))
    else if !(Allocations in payload && payload[Allocations].List? && payload[Allocations].items != []) then
        (none, Some(AmountInvalid))
    else
      match AllocationTotal(payload[Allocations].items, currency)
      case BadAllocation(fault) => (none, Some(fault))
      case Sum(minor) =>
        if minor != payload[AmountMinor].n then (none, Some(AmountConflict))
        else (LedgerRow(venueId, settlementId, minor, currency, operatorId, occurredAt, false), None)
  }

  function Opened(aggregateId: string): Payload {
    map[Id := Str(aggregateId), Status := Str("OPEN"), PendingCloud := Bool(true)]
  }

  function UpdateCheck(cache: Cache, aggregateId: string, expected: Option<int>,
      payload: Payload): (r: (Cache, Option<Fault>))
  {
    if (Check, aggregateId) !in cache then (cache, Some(StateConflict))
    else
      var current := Cached(cache[(Check, aggregateId)]);
      if StaleVersion(expected, current) then (cache, Some(VersionConflict))
      else
        var version := VersionOf(current) + 1;
        var check := current + payload
            + map[Id := Str(aggregateId), Version := Num(version), PendingCloud := Bool(true)];
        (cache[(Check, aggregateId) := CacheRow(Some(version), check)], None)
  }

  function OnCache(r: (Cache, Option<Fault>), ledger: map<string, LedgerRow>): Projected {
    if r.1.Some? then Failed(r.1.value) else Projected(r.0, ledger)
  }

  function Credit(cache: Cache, ledger: map<string, LedgerRow>, operationId: string,
      r: (LedgerRow, Option<Fault>)): Projected
  {
    if r.1.Some? then Failed(r.1.value)
    else if operationId in ledger then Failed(UniqueViolation)
    else Projected(cache, ledger[operationId := r.0])
  }

  /** applyLocalProjection; the ledger insert fails when the operation already has a row. */
  function Project(
    cache: Cache, ledger: map<string, LedgerRow>, op: Operation, operationId: string, venueId: string,
    aggregateId: string, expected: Option<int>, payload: Payload, occurredAt: string): Projected
  {
    match op
    case SessionStart => OnCache(StartSession(cache, aggregateId, payload, occurredAt), ledger)
    case SessionPause | SessionResume | SessionEnd =>
      OnCache(MoveSession(cache, op, aggregateId, expected, occurredAt), ledger)
    case CashPayment => Credit(cache, ledger, operationId, CashLine(cache, venueId, payload, occurredAt))
    case OrderCreate =>
      Projected(cache[(Order, aggregateId) := CacheRow(Some(1), Opened(aggregateId) + payload)], ledger)
    case CheckCreate =>
      var check := Opened(aggregateId) + map[Version := Num(1)] + payload;
      Projected(cache[(Check, aggregateId) := CacheRow(Some(1), check)], ledger)
    case CheckUpdate => OnCache(UpdateCheck(cache, aggregateId, expected, payload), ledger)
    case Uncertified(_) => Projected(cache, ledger)
  }

  lemma CashIsCredited(cache: Cache, ledger: map<string, LedgerRow>, id: string, venueId: string,
      aggregateId: string, expected: Option<int>, payload: Payload, at: string)
    ensures Project(cache, ledger, CashPayment, id, venueId, aggregateId, expected, payload, at)
         == Credit(cache, ledger, id, CashLine(cache, venueId, payload, at))
  {
    hide CashLine;
  }

  lemma NewLineIsCredited(cache: Cache, ledger: map<string, LedgerRow>, id: string, line: (LedgerRow, Option<Fault>))
    requires line.1 == None && id !in ledger
    ensures Credit(cache, ledger, id, line) == Projected(cache, ledger[id := line.0])
  {
  }
}
