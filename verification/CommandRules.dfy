/** continuity.js, createCommand: which commands are accepted, which fault the others get, and what an accepted one
    changes. */
module CommandRules {
  import opened Options
  import opened Text
  import opened ContinuityData
  import opened Projection
  import opened Continuity
  import opened Sums
  import AppendRules
  import EdgeStore
  import MinorUnits

  // ---------- The address of a command ----------

  function VenueOf(shopId: Option<string>, input: CommandInput): string {
    Trim(if input.venueId.Some? then input.venueId.value else if shopId.Some? then shopId.value else "")
  }

  predicate OneOfEight(op: Operation) {
    op in {SessionStart, SessionPause, SessionResume, SessionEnd, OrderCreate, CheckCreate, CheckUpdate, CashPayment}
  }

  predicate OtherVenue(shopId: Option<string>, venueId: string) {
    shopId.Some? && shopId.value != "" && shopId.value != venueId
  }

  /** At most the first 160 characters. */
  predicate Cut160(whole: string, cut: string) {
    cut <= whole && |cut| == if |whole| < 160 then |whole| else 160
  }

  /** The envelope of a command that passes the checks of its input. */
  ghost predicate Addressed(shopId: Option<string>, input: CommandInput, e: Envelope) {
    e.Envelope? && e.venueId == VenueOf(shopId, input) && e.deviceId == Trim(input.deviceId)
    && e.aggregateType == Trim(input.aggregateType) && e.aggregateId == Trim(input.aggregateId)
    && Cut160(if input.idempotencyKey.Some? then input.idempotencyKey.value else input.operationId, e.key)
  }

  /** The first check of the input that fails. */
  ghost function InputFault(shopId: Option<string>, input: CommandInput): Option<Fault> {
    if !OneOfEight(input.operation) then Some(OfflineUnsupported)
    else if Blank(VenueOf(shopId, input)) then Some(MissingField)
    else if OtherVenue(shopId, VenueOf(shopId, input)) then Some(TenantConflict)
    else if !AppendRules.UuidForm(input.operationId) then Some(NotUuid)
    else if Blank(input.deviceId) || Blank(input.aggregateType) || Blank(input.aggregateId) then Some(MissingField)
    else if input.claimed.Some? && input.claimed.value != input.payload then Some(HashMismatch)
    else if !input.dateOk then Some(BadDate)
    else None
  }

  lemma TrimTwice(s: string)
    ensures Blank(Trim(s)) <==> Trim(s) == ""
  {
    TrimBlank(s);
    if Blank(Trim(s)) {
      var before, after := TrimSplits(s);
      assert Blank(s);
    }
  }

  lemma EnvelopeExactly(shopId: Option<string>, input: CommandInput)
    ensures match InputFault(shopId, input)
            case Some(fault) => CheckEnvelope(shopId, input) == Bad(fault)
            case None => Addressed(shopId, input, CheckEnvelope(shopId, input))
  {
    TrimTwice(input.venueId.GetOr(shopId.GetOr("")));
    TrimBlank(input.deviceId);
    TrimBlank(input.aggregateType);
    TrimBlank(input.aggregateId);
    AppendRules.UuidExactly(input.operationId);
  }

  // ---------- Permissions ----------

  /** part stands in the text from i on, and a comma or the end follows. */
  predicate StandsAt(text: string, part: string, i: nat) {
    i + |part| <= |text| && text[i..i + |part|] == part && (i + |part| == |text| || text[i + |part|] == ',')
  }

  predicate AfterComma(text: string, part: string, i: nat) {
    0 < i <= |text| && text[i - 1] == ',' && StandsAt(text, part, i)
  }

  /** The text between two commas, or a comma and an end, or the ends. */
  ghost predicate PartOf(text: string, part: string) {
    ',' !in part && (StandsAt(text, part, 0) || exists i: nat :: AfterComma(text, part, i))
  }

  lemma CommaInLonger(text: string, a: string, b: string)
    requires StandsAt(text, a, 0) && StandsAt(text, b, 0) && |a| < |b|
    ensures ',' in b
  {
    assert b[|a|] == text[0..|b|][|a|] == text[|a|];
  }

  lemma OneFirstPart(text: string, a: string, b: string)
    requires ',' !in a && ',' !in b && StandsAt(text, a, 0) && StandsAt(text, b, 0)
    ensures a == b
  {
    if |a| < |b| {
      CommaInLonger(text, a, b);
    } else if |b| < |a| {
      CommaInLonger(text, b, a);
    }
  }

  lemma StandsInTail(text: string, part: string, i: nat, next: nat)
    requires text != "" && next == i + 1
    ensures StandsAt(text, part, next) <==> StandsAt(text[1..], part, i)
  {
    if next + |part| <= |text| {
      assert text[1..][i..i + |part|] == text[next..next + |part|];
    }
  }

  lemma LaterInTail(text: string, part: string)
    requires text != ""
    ensures (exists i: nat :: AfterComma(text, part, i))
       <==> (exists i: nat :: AfterComma(text[1..], part, i)) || (text[0] == ',' && StandsAt(text[1..], part, 0))
  {
    if i: nat :| AfterComma(text[1..], part, i) {
      StandsInTail(text, part, i, i + 1);
      assert AfterComma(text, part, i + 1);
    }
    StandsInTail(text, part, 0, 1);
    if text[0] == ',' && StandsAt(text[1..], part, 0) {
      assert AfterComma(text, part, 1);
    }
    if i: nat :| AfterComma(text, part, i) {
      StandsInTail(text, part, i - 1, i);
      if i > 1 {
        assert AfterComma(text[1..], part, i - 1);
      }
    }
  }

  lemma {:induction false} SplitIsParts(text: string, part: string)
    requires ',' !in part
    ensures SplitComma(text) != [] && ',' !in SplitComma(text)[0] && StandsAt(text, SplitComma(text)[0], 0)
    ensures part in SplitComma(text)[1..] <==> exists i: nat :: AfterComma(text, part, i)
  {
    if text != "" {
      var rest := SplitComma(text[1..]);
      SplitIsParts(text[1..], part);
      LaterInTail(text, part);
      if text[0] == ',' {
        assert SplitComma(text)[1..] == rest && rest == [rest[0]] + rest[1..];
        if StandsAt(text[1..], part, 0) {
          OneFirstPart(text[1..], part, rest[0]);
        }
      } else {
        assert SplitComma(text)[1..] == rest[1..];
        assert text[..1 + |rest[0]|] == [text[0]] + text[1..][..|rest[0]|];
      }
    }
  }

  lemma {:induction false} NoCommaInParts(text: string)
    ensures SplitComma(text) != [] && forall part | part in SplitComma(text) :: ',' !in part
  {
    if text != "" {
      NoCommaInParts(text[1..]);
      var rest := SplitComma(text[1..]);
      assert rest == [rest[0]] + rest[1..];
    }
  }

  lemma SplitExactly(text: string, part: string)
    ensures part in SplitComma(text) <==> PartOf(text, part)
  {
    NoCommaInParts(text);
    if ',' !in part {
      var parts := SplitComma(text);
      SplitIsParts(text, part);
      assert parts == [parts[0]] + parts[1..];
      if StandsAt(text, part, 0) {
        OneFirstPart(text, part, parts[0]);
      }
    }
  }

  /** Commands on sessions need the permission for sessions, orders that for orders, the others that for the
      checkout. */
  function Needed(op: Operation): string {
    if op in {SessionStart, SessionPause, SessionResume, SessionEnd} then "session.write"
    else if op == OrderCreate then "order.write" else "checkout.write"
  }

  /** The operator is the owner, or has among the permissions the one needed or the star. */
  ghost predicate MayIssue(operator: Payload, op: Operation) {
    (Role in operator && operator[Role] == Str("OWNER"))
    || exists part | PartOf(FieldText(operator, Permissions), part) :: Trim(part) == "*" || Trim(part) == Needed(op)
  }

  ghost predicate ActiveOperator(cache: Cache, id: string) {
    (Operator, id) in cache
    && !(IsActive in cache[(Operator, id)].payload && cache[(Operator, id)].payload[IsActive] == Bool(false))
  }

  ghost function OperatorFault(cache: Cache, op: Operation, payload: Payload): Option<Fault> {
    var id := Trim(FieldText(payload, OperatorUserId));
    if id == "" then Some(MissingField)
    else if ActiveOperator(cache, id) && MayIssue(cache[(Operator, id)].payload, op) then None
    else Some(PermissionDenied)
  }

  lemma PermissionExactly(cache: Cache, op: Operation, payload: Payload)
    requires OneOfEight(op)
    ensures PermissionFault(cache, op, payload) == OperatorFault(cache, op, payload)
  {
    var id := Required(payload, OperatorUserId);
    if (Operator, id) in cache {
      PermissionsAre(FieldText(cache[(Operator, id)].payload, Permissions), Needed(op));
    }
  }

  lemma PermissionsAre(text: string, needed: string)
    ensures (exists part | PartOf(text, part) :: Trim(part) == "*" || Trim(part) == needed)
       <==> (exists i | 0 <= i < |SplitComma(text)| ::
             Trim(SplitComma(text)[i]) == "*" || Trim(SplitComma(text)[i]) == needed)
  {
    var parts := SplitComma(text);
    if part :| PartOf(text, part) && (Trim(part) == "*" || Trim(part) == needed) {
      SplitExactly(text, part);
      var i :| 0 <= i < |parts| && parts[i] == part;
    }
    if i :| 0 <= i < |parts| && (Trim(parts[i]) == "*" || Trim(parts[i]) == needed) {
      SplitExactly(text, parts[i]);
    }
  }

  // ---------- Sessions ----------

  /** A payload has this value of a field, or does not have the field. */
  predicate Has(p: Payload, f: Field, value: Option<Value>) {
    if value.Some? then f in p && p[f] == value.value else f !in p
  }

  function Given(p: Payload, f: Field): Option<Value> {
    if f in p then Some(p[f]) else None
  }

  /** Only this row is new or changed. */
  ghost predicate OnlyRow(cache: Cache, cache': Cache, kind: Kind, id: string) {
    (kind, id) in cache'
    && forall k | k != (kind, id) :: (k in cache' <==> k in cache) && (k in cache ==> cache'[k] == cache[k])
  }

  /** Another cached session with this resource id is active or paused. */
  ghost predicate Taken(cache: Cache, resourceId: string) {
    exists id | (Session, id) in cache ::
      var p := cache[(Session, id)].payload;
      Has(p, ResourceId, Some(Str(resourceId)))
      && (Has(p, Status, Some(Str("ACTIVE"))) || Has(p, Status, Some(Str("PAUSED"))))
  }

  ghost function StartFault(cache: Cache, payload: Payload): Option<Fault> {
    var id := Trim(FieldText(payload, ResourceId));
    if id == "" then Some(MissingField)
    else if (Resource, id) in cache && FieldText(cache[(Resource, id)].payload, Status) != "MAINTENANCE"
            && FieldText(cache[(Resource, id)].payload, Status) != "DISABLED" && !Taken(cache, id) then None
    else Some(ResourceConflict)
  }

  /** A new session is active, of version 1, on the resource, from that instant, and not yet in the cloud; the payload
      overrides any of this. */
  function StartedField(id: string, payload: Payload, at: string, f: Field): Option<Value> {
    if f in payload then Some(payload[f])
    else
      match f
      case Id => Some(Str(id))
      case Status => Some(Str("ACTIVE"))
      case StartedAt => Some(Str(at))
      case Version => Some(Num(1))
      case PendingCloud => Some(Bool(true))
      case _ => None
  }

  lemma TakenIs(cache: Cache, resourceId: string)
    ensures Occupied(cache, resourceId) <==> Taken(cache, resourceId)
  {
    if Occupied(cache, resourceId) {
      var k :| k in cache && k.0.Session? && Live(cache[k].payload) && ResourceId in cache[k].payload
               && cache[k].payload[ResourceId] == Str(resourceId);
      assert (Session, k.1) in cache;
    }
  }

  lemma StartsExactly(cache: Cache, id: string, payload: Payload, at: string)
    ensures StartSession(cache, id, payload, at).1 == StartFault(cache, payload)
    ensures StartFault(cache, payload).None? ==>
              var cache' := StartSession(cache, id, payload, at).0;
              OnlyRow(cache, cache', Session, id) && cache'[(Session, id)].version == Some(1)
              && forall f :: Has(cache'[(Session, id)].payload, f, StartedField(id, payload, at, f))
  {
    TakenIs(cache, Required(payload, ResourceId));
  }

  /** The version a cached row counts as having, if any. */
  function CachedVersion(row: CacheRow): Option<int> {
    if row.version.Some? then row.version
    else if Version in row.payload && row.payload[Version].Num? then Some(row.payload[Version].n) else None
  }

  function VersionAfter(row: CacheRow): int {
    if CachedVersion(row).Some? then CachedVersion(row).value + 1 else 1
  }

  /** No version is expected, or 0, or the cached one. */
  predicate Expects(expected: Option<int>, row: CacheRow) {
    expected in {None, Some(0)} || expected == CachedVersion(row)
  }

  function UpdateFault(cache: Cache, kind: Kind, id: string, expected: Option<int>): Option<Fault> {
    if (kind, id) !in cache then Some(StateConflict)
    else if Expects(expected, cache[(kind, id)]) then None else Some(VersionConflict)
  }

  /** Pausing, resuming and ending set the status, the version and their time, and leave every other field. */
  function MovedField(op: Operation, row: CacheRow, at: string, f: Field): Option<Value>
    requires op in {SessionPause, SessionResume, SessionEnd}
  {
    match f
    case Status => Some(Str(match op case SessionPause => "PAUSED" case SessionResume => "ACTIVE" case _ => "FINISHED"))
    case Version => Some(Num(VersionAfter(row)))
    case PendingCloud => Some(Bool(true))
    case PausedAt =>
      (match op
       case SessionPause => Some(Str(at))
       case SessionResume => Some(Null)
       case _ => Given(row.payload, PausedAt))
    case FinishedAt => if op == SessionEnd then Some(Str(at)) else Given(row.payload, FinishedAt)
    case _ => Given(row.payload, f)
  }

  lemma StaleIs(expected: Option<int>, row: CacheRow)
    ensures StaleVersion(expected, Cached(row)) <==> !Expects(expected, row)
    ensures VersionOf(Cached(row)) + 1 == VersionAfter(row)
  {
  }

  lemma MovesExactly(cache: Cache, op: Operation, id: string, expected: Option<int>, at: string)
    requires op in {SessionPause, SessionResume, SessionEnd}
    ensures MoveSession(cache, op, id, expected, at).1 == UpdateFault(cache, Session, id, expected)
    ensures UpdateFault(cache, Session, id, expected).None? ==>
              var row, cache' := cache[(Session, id)], MoveSession(cache, op, id, expected, at).0;
              OnlyRow(cache, cache', Session, id) && cache'[(Session, id)].version == Some(VersionAfter(row))
              && forall f :: Has(cache'[(Session, id)].payload, f, MovedField(op, row, at, f))
  {
    if (Session, id) in cache {
      var row := cache[(Session, id)];
      StaleIs(expected, row);
      if Expects(expected, row) {
        var current, cache' := Cached(row), MoveSession(cache, op, id, expected, at).0;
        forall f ensures Has(cache'[(Session, id)].payload, f, MovedField(op, row, at, f)) {
          FieldMoved(op, row, current, VersionAfter(row), at, cache'[(Session, id)].payload, f);
        }
      }
    }
  }

  lemma FieldMoved(op: Operation, row: CacheRow, current: Payload, version: int, at: string, moved: Payload, f: Field)
    requires op in {SessionPause, SessionResume, SessionEnd} && current == Cached(row) && version == VersionAfter(row)
    requires moved == current + map[Status := Str(NextStatus(op)), Version := Num(version)]
      + (if op.SessionPause? then map[PausedAt := Str(at)]
         else if op.SessionResume? then map[PausedAt := Null] else map[FinishedAt := Str(at)])
      + map[PendingCloud := Bool(true)]
    ensures Has(moved, f, MovedField(op, row, at, f))
  {
  }

  // ---------- Orders and checks ----------

  /** A new order or check is open and not yet in the cloud; a check has version 1; the payload overrides any of
      this. */
  function OpenedField(kind: Kind, id: string, payload: Payload, f: Field): Option<Value> {
    if f in payload then Some(payload[f])
    else
      match f
      case Id => Some(Str(id))
      case Status => Some(Str("OPEN"))
      case Version => if kind == Check then Some(Num(1)) else None
      case PendingCloud => Some(Bool(true))
      case _ => None
  }

  /** An update lays the payload over the cached check; its id, its version and the cloud mark are not overridden. */
  function UpdatedField(row: CacheRow, id: string, payload: Payload, f: Field): Option<Value> {
    match f
    case Id => Some(Str(id))
    case Version => Some(Num(VersionAfter(row)))
    case PendingCloud => Some(Bool(true))
    case _ => if f in payload then Some(payload[f]) else Given(row.payload, f)
  }

  lemma UpdatesExactly(cache: Cache, id: string, expected: Option<int>, payload: Payload)
    ensures UpdateCheck(cache, id, expected, payload).1 == UpdateFault(cache, Check, id, expected)
    ensures UpdateFault(cache, Check, id, expected).None? ==>
              var row, cache' := cache[(Check, id)], UpdateCheck(cache, id, expected, payload).0;
              OnlyRow(cache, cache', Check, id) && cache'[(Check, id)].version == Some(VersionAfter(row))
              && forall f :: Has(cache'[(Check, id)].payload, f, UpdatedField(row, id, payload, f))
  {
    if (Check, id) in cache {
      StaleIs(expected, cache[(Check, id)]);
    }
  }

  // ---------- Cash ----------

  /** What is wrong with one allocation. */
  function AllocationFault(item: Value, currency: string): Option<Fault> {
    if !item.Record? then Some(AmountInvalid)
    else if Trim(FieldText(item.fields, SnapshotId)) == "" then Some(MissingField)
    else
      match MinorUnits.DecimalToMinor(FieldText(item.fields, Amount), currency)
      case Minor(_) => None
      case Missing => Some(MissingField)
      case _ => Some(AmountInvalid)
  }

  /** The exact minor units of a sound allocation. */
  function AllocatedUnits(item: Value, currency: string): nat
    requires AllocationFault(item, currency).None?
  {
    MinorUnits.DecimalToMinor(FieldText(item.fields, Amount), currency).units
  }

  /** The fault of the first allocation at fault. */
  function FirstFault(items: seq<Value>, currency: string): Option<Fault> {
    if items == [] then None
    else if AllocationFault(items[0], currency).Some? then AllocationFault(items[0], currency)
    else FirstFault(items[1..], currency)
  }

  lemma {:induction false} FirstFaultNext(front: seq<Value>, last: Value, currency: string)
    ensures FirstFault(front + [last], currency)
         == if FirstFault(front, currency).Some? then FirstFault(front, currency) else AllocationFault(last, currency)
  {
    if front == [] {
      assert ([] + [last])[1..] == [];
    } else {
      FirstFaultNext(front[1..], last, currency);
      assert (front + [last])[1..] == front[1..] + [last];
    }
  }

  lemma {:induction false} SoundExactly(items: seq<Value>, currency: string)
    ensures FirstFault(items, currency).None?
       <==> forall i | 0 <= i < |items| :: AllocationFault(items[i], currency).None?
  {
    if items != [] {
      SoundExactly(items[1..], currency);
      assert (forall i | 0 <= i < |items| :: AllocationFault(items[i], currency).None?)
        <==> AllocationFault(items[0], currency).None?
             && forall i | 0 <= i < |items[1..]| :: AllocationFault(items[1..][i], currency).None?;
    }
  }

  function UnitsOf(items: seq<Value>, currency: string): seq<int>
    requires FirstFault(items, currency).None?
  {
    SoundExactly(items, currency);
    seq(|items|, i requires 0 <= i < |items| => AllocatedUnits(items[i], currency))
  }

  function NonNegativeSum(units: seq<int>): nat
    requires forall i | 0 <= i < |units| :: units[i] >= 0
  {
    SumNonNegative(units);
    Sums.Sum(units)
  }

  lemma AddsExactly(before: Total, item: Value, currency: string)
    ensures AddAllocation(before, item, currency)
         == if before.BadAllocation? then before
            else if AllocationFault(item, currency).Some? then BadAllocation(AllocationFault(item, currency).value)
            else Projection.Sum(before.minor + AllocatedUnits(item, currency))
  {
  }

  lemma UnitsNext(front: seq<Value>, last: Value, currency: string)
    requires FirstFault(front, currency).None? && AllocationFault(last, currency).None?
    ensures FirstFault(front + [last], currency).None?
    ensures NonNegativeSum(UnitsOf(front + [last], currency))
         == NonNegativeSum(UnitsOf(front, currency)) + AllocatedUnits(last, currency)
  {
    FirstFaultNext(front, last, currency);
    var units: seq<int> := UnitsOf(front + [last], currency);
    assert units == UnitsOf(front, currency) + [AllocatedUnits(last, currency) as int];
    SumAppend(UnitsOf(front, currency), AllocatedUnits(last, currency));
  }

  /** The total of the allocations is the sum of their exact amounts, or the first fault. */
  lemma {:induction false} AllocationsAdd(items: seq<Value>, currency: string)
    ensures AllocationTotal(items, currency)
         == if FirstFault(items, currency).Some? then BadAllocation(FirstFault(items, currency).value)
            else Projection.Sum(NonNegativeSum(UnitsOf(items, currency)))
  {
    if items == [] {
      assert UnitsOf(items, currency) == [];
    } else {
      var front, last := items[..|items| - 1], items[|items| - 1];
      assert items == front + [last];
      AllocationsAdd(front, currency);
      AddsExactly(AllocationTotal(front, currency), last, currency);
      FirstFaultNext(front, last, currency);
      if FirstFault(front, currency).None? && AllocationFault(last, currency).None? {
        UnitsNext(front, last, currency);
      }
    }
  }

  /** The cached venue names another currency. */
  predicate OtherCurrency(cache: Cache, venueId: string, currency: string) {
    (Venue, venueId) in cache
    && var venue := cache[(Venue, venueId)].payload;
       Currency in venue && Truthy(venue[Currency]) && Upper(FieldText(venue, Currency)) != currency
  }

  ghost function CashFault(cache: Cache, venueId: string, payload: Payload): Option<Fault> {
    var currency := Upper(Trim(FieldText(payload, Currency)));
    if !(AmountMinor in payload && payload[AmountMinor].Num? && payload[AmountMinor].n > 0) then Some(AmountInvalid)
    else if currency == "" || Trim(FieldText(payload, SettlementId)) == ""
            || Trim(FieldText(payload, OperatorUserId)) == "" then Some(MissingField)
    else if OtherCurrency(cache, venueId, currency) then Some(CurrencyConflict)
    else if !(Allocations in payload && payload[Allocations].List? && |payload[Allocations].items| > 0) then
      Some(AmountInvalid)
    else
      var items := payload[Allocations].items;
      if FirstFault(items, currency).Some? then FirstFault(items, currency)
      else if Sums.Sum(UnitsOf(items, currency)) != payload[AmountMinor].n then Some(AmountConflict)
      else None
  }

  lemma CashExactly(cache: Cache, venueId: string, payload: Payload, at: string)
    ensures CashLine(cache, venueId, payload, at).1 == CashFault(cache, venueId, payload)
    ensures CashFault(cache, venueId, payload).None? ==>
              AmountMinor in payload && payload[AmountMinor].Num? && payload[AmountMinor].n > 0
              && CashLine(cache, venueId, payload, at).0
                == LedgerRow(venueId, Trim(FieldText(payload, SettlementId)), payload[AmountMinor].n,
                             Upper(Trim(FieldText(payload, Currency))), Trim(FieldText(payload, OperatorUserId)), at,
                                 false)
  {
    if Allocations in payload && payload[Allocations].List? {
      AllocationsAdd(payload[Allocations].items, Upper(Trim(FieldText(payload, Currency))));
    }
  }

  /** The number of decimals of a currency. */
  lemma ScaleExactly(currency: string)
    ensures var code := Upper(Trim(currency));
            MinorUnits.CurrencyScale(currency) ==
              if code in {"BIF", "CLP", "DJF", "GNF", "ISK", "JPY", "KMF", "KRW", "PYG", "RWF", "UGX", "VND",
                          "VUV", "XAF", "XOF", "XPF"} then 0
              else if code in {"BHD", "IQD", "JOD", "KWD", "LYD", "OMR", "TND"} then 3 else 2
  {
  }

  // ---------- The projection of a command ----------

  ghost function ProjectionFault(t: Tables, input: CommandInput, e: Envelope): Option<Fault>
    requires e.Envelope? && OneOfEight(input.operation)
  {
    match input.operation
    case SessionStart => StartFault(t.cache, input.payload)
    case SessionPause | SessionResume | SessionEnd =>
      UpdateFault(t.cache, Session, e.aggregateId, input.aggregateVersion)
    case CheckUpdate => UpdateFault(t.cache, Check, e.aggregateId, input.aggregateVersion)
    case CashPayment =>
      var fault := CashFault(t.cache, e.venueId, input.payload);
      if fault.Some? then fault else if input.operationId in t.ledger then Some(UniqueViolation) else None
    case OrderCreate | CheckCreate => None
  }

  /** The row of a command's aggregate after the command. */
  ghost function FieldAfter(t: Tables, input: CommandInput, id: string, f: Field): Option<Value>
    requires OneOfEight(input.operation) && !input.operation.CashPayment?
    requires input.operation in {SessionPause, SessionResume, SessionEnd} ==> (Session, id) in t.cache
    requires input.operation == CheckUpdate ==> (Check, id) in t.cache
  {
    match input.operation
    case SessionStart => StartedField(id, input.payload, input.occurredAt, f)
    case SessionPause | SessionResume | SessionEnd =>
      MovedField(input.operation, t.cache[(Session, id)], input.occurredAt, f)
    case CheckUpdate => UpdatedField(t.cache[(Check, id)], id, input.payload, f)
    case OrderCreate => OpenedField(Order, id, input.payload, f)
    case CheckCreate => OpenedField(Check, id, input.payload, f)
  }

  function KindOf(op: Operation): Kind {
    if op == OrderCreate then Order else if op in {CheckCreate, CheckUpdate} then Check else Session
  }

  ghost function RowVersionAfter(t: Tables, input: CommandInput, id: string): int {
    var key := (KindOf(input.operation), id);
    if input.operation in {SessionStart, OrderCreate, CheckCreate} || key !in t.cache then 1
    else VersionAfter(t.cache[key])
  }

  /** What an accepted command does to the cache and the ledger: a cash payment adds its ledger row, every other one
      sets the cached row of its aggregate. */
  ghost predicate Projects(t: Tables, input: CommandInput, e: Envelope, cache: Cache, ledger: map<string, LedgerRow>)
    requires e.Envelope? && OneOfEight(input.operation) && ProjectionFault(t, input, e).None?
  {
    var payload, id := input.payload, e.aggregateId;
    if input.operation == CashPayment then
      cache == t.cache && AmountMinor in payload && payload[AmountMinor].Num? && payload[AmountMinor].n > 0
      && ledger == t.ledger[input.operationId :=
        LedgerRow(e.venueId, Trim(FieldText(payload, SettlementId)), payload[AmountMinor].n,
                  Upper(Trim(FieldText(payload, Currency))), Trim(FieldText(payload, OperatorUserId)),
                  input.occurredAt, false)]
    else
      ledger == t.ledger && OnlyRow(t.cache, cache, KindOf(input.operation), id)
      && var row := cache[(KindOf(input.operation), id)];
         row.version == Some(RowVersionAfter(t, input, id))
         && forall f :: Has(row.payload, f, FieldAfter(t, input, id, f))
  }

  lemma OpensExactly(cache: Cache, kind: Kind, id: string, payload: Payload, row: Payload)
    requires kind in {Order, Check}
    requires row == Opened(id) + (if kind == Check then map[Version := Num(1)] else map[]) + payload
    ensures forall f :: Has(row, f, OpenedField(kind, id, payload, f))
  {
  }

  lemma ProjectsExactly(t: Tables, input: CommandInput, e: Envelope)
    requires e.Envelope? && OneOfEight(input.operation)
    ensures match ProjectInput(t, input, e)
            case Failed(fault) => ProjectionFault(t, input, e) == Some(fault)
            case Projected(cache, ledger) =>
              ProjectionFault(t, input, e).None? && Projects(t, input, e, cache, ledger)
  {
    var payload, id, at := input.payload, e.aggregateId, input.occurredAt;
    match input.operation {
      case SessionStart => StartsExactly(t.cache, id, payload, at);
      case SessionPause | SessionResume | SessionEnd =>
        MovesExactly(t.cache, input.operation, id, input.aggregateVersion, at);
      case CheckUpdate => UpdatesExactly(t.cache, id, input.aggregateVersion, payload);
      case CashPayment => CashExactly(t.cache, e.venueId, payload, at);
      case OrderCreate => OpensExactly(t.cache, Order, id, payload, Opened(id) + payload);
      case CheckCreate => OpensExactly(t.cache, Check, id, payload, Opened(id) + map[Version := Num(1)] + payload);
    }
  }

  // ---------- The answer to a command ----------

  /** The number after the largest of the device, or 1. */
  ghost predicate NextNumber(commands: seq<Command>, deviceId: string, n: nat) {
    (forall i | 0 <= i < |commands| && commands[i].deviceId == deviceId :: commands[i].localSequence < n)
    && (n == 1 || (n > 1 && exists i | 0 <= i < |commands| ::
                     commands[i].deviceId == deviceId && commands[i].localSequence == n - 1))
  }

  lemma {:induction false} NumbersOn(commands: seq<Command>, deviceId: string)
    ensures NextNumber(commands, deviceId, NextSequence(commands, deviceId))
  {
    if commands != [] {
      var front, last := commands[..|commands| - 1], commands[|commands| - 1];
      NumbersOn(front, deviceId);
      var before, n := NextSequence(front, deviceId), NextSequence(commands, deviceId);
      if n > 1 {
        if n == before {
          var i :| 0 <= i < |front| && front[i].deviceId == deviceId && front[i].localSequence == n - 1;
          assert commands[i].localSequence == n - 1;
        } else {
          assert last.deviceId == deviceId && last.localSequence == n - 1;
        }
      }
    }
  }

  ghost predicate KeyUsed(commands: seq<Command>, venueId: string, key: string) {
    exists c | c in commands :: c.venueId == venueId && c.idempotencyKey == key
  }

  predicate SameContent(c: Command, input: CommandInput, e: Envelope)
    requires e.Envelope?
  {
    c.operation == input.operation && c.payload == input.payload
    && c.aggregateId == e.aggregateId && c.deviceId == e.deviceId
  }

  /** The row of an accepted command: the request as it came, trimmed, with the next number of its device, not yet
      sent. */
  ghost predicate NewRow(t: Tables, input: CommandInput, e: Envelope, c: Command)
    requires e.Envelope?
  {
    NextNumber(t.commands, e.deviceId, c.localSequence)
    && c == Command(input.operationId, e.deviceId, e.venueId, c.localSequence, e.key, input.operation, e.aggregateType,
                    e.aggregateId, input.aggregateVersion, input.payload, input.occurredAt, Pending, 0)
  }

  /** An id that is known is a duplicate or a conflict; a new one is refused with the first fault there is, of the
      operator, of the projection or of the key, and otherwise creates a row and has its effect. */
  ghost predicate Answered(t: Tables, input: CommandInput, e: Envelope, t': Tables, outcome: Outcome)
    requires e.Envelope? && OneOfEight(input.operation)
  {
    if exists c | c in t.commands :: c.operationId == input.operationId then
      t' == t
      && (exists c | c in t.commands && c.operationId == input.operationId ::
            outcome == if SameContent(c, input, e) then Duplicate(c) else Rejected(IdempotencyConflict))
    else if OperatorFault(t.cache, input.operation, input.payload).Some? then
      t' == t && outcome == Rejected(OperatorFault(t.cache, input.operation, input.payload).value)
    else if ProjectionFault(t, input, e).Some? then
      t' == t && outcome == Rejected(ProjectionFault(t, input, e).value)
    else if KeyUsed(t.commands, e.venueId, e.key) then t' == t && outcome == Rejected(UniqueViolation)
    else
      outcome.Created? && NewRow(t, input, e, outcome.command) && t'.commands == t.commands + [outcome.command]
      && t'.shopId == t.shopId && t'.conflicts == t.conflicts && Projects(t, input, e, t'.cache, t'.ledger)
  }

  lemma KeyIs(commands: seq<Command>, venueId: string, key: string)
    ensures KeyTaken(commands, venueId, key) <==> KeyUsed(commands, venueId, key)
  {
    if KeyTaken(commands, venueId, key) {
      var i :| 0 <= i < |commands| && commands[i].venueId == venueId && commands[i].idempotencyKey == key;
      assert commands[i] in commands;
    }
  }

  lemma CheckedIsAnswered(t: Tables, input: CommandInput, e: Envelope)
    requires e.Envelope? && OneOfEight(input.operation)
    ensures var (t', outcome) := CreateChecked(t, input, e);
            Answered(t, input, e, t', outcome)
  {
    var existing := FindCommand(t.commands, input.operationId);
    if existing.Some? {
      assert t.commands[existing.value] in t.commands;
    } else {
      PermissionExactly(t.cache, input.operation, input.payload);
      ProjectsExactly(t, input, e);
      KeyIs(t.commands, e.venueId, e.key);
      NumbersOn(t.commands, e.deviceId);
    }
  }

  /** createCommand: a command whose input fails a check is refused with the first such fault; every other one is
      answered as above, under the envelope of its trimmed fields. */
  lemma CommandAnswered(t: Tables, input: CommandInput)
    ensures var (t', outcome) := CreateCommand(t, input);
            match InputFault(t.shopId, input)
            case Some(fault) => t' == t && outcome == Rejected(fault)
            case None => exists e :: Addressed(t.shopId, input, e) && Answered(t, input, e, t', outcome)
  {
    var e := CheckEnvelope(t.shopId, input);
    EnvelopeExactly(t.shopId, input);
    if e.Envelope? {
      CheckedIsAnswered(t, input, e);
    }
  }

  lemma AnsweredMove(t: Tables, input: CommandInput, e: Envelope, t': Tables, outcome: Outcome)
    requires e.Envelope? && input.operation in {SessionPause, SessionResume, SessionEnd}
    requires Answered(t, input, e, t', outcome) && outcome.Created?
    ensures (Session, e.aggregateId) in t.cache && Expects(input.aggregateVersion, t.cache[(Session, e.aggregateId)])
            && OnlyRow(t.cache, t'.cache, Session, e.aggregateId)
            && MovedAs(input.operation, t.cache[(Session, e.aggregateId)], input.occurredAt,
                       t'.cache[(Session, e.aggregateId)])
  {
    var row, row' := t.cache[(Session, e.aggregateId)], t'.cache[(Session, e.aggregateId)];
    forall f ensures Has(row'.payload, f, MovedField(input.operation, row, input.occurredAt, f)) {
      assert Has(row'.payload, f, FieldAfter(t, input, e.aggregateId, f));
    }
    MovedRow(input.operation, row, input.occurredAt, row');
  }

  /** So for pause, resume and end: what an accepted one makes of its session, field by field. */
  lemma AcceptedMove(t: Tables, input: CommandInput, id: string)
    requires input.operation in {SessionPause, SessionResume, SessionEnd} && CreateCommand(t, input).1.Created?
    requires id == Trim(input.aggregateId)
    ensures var cache, cache' := t.cache, CreateCommand(t, input).0.cache;
            (Session, id) in cache && Expects(input.aggregateVersion, cache[(Session, id)])
            && OnlyRow(cache, cache', Session, id)
            && MovedAs(input.operation, cache[(Session, id)], input.occurredAt, cache'[(Session, id)])
  {
    var e := CheckEnvelope(t.shopId, input);
    EnvelopeExactly(t.shopId, input);
    CheckedIsAnswered(t, input, e);
    AnsweredMove(t, input, e, CreateCommand(t, input).0, CreateCommand(t, input).1);
  }

  ghost predicate MovedAs(op: Operation, row: CacheRow, at: string, row': CacheRow) {
    var p := row'.payload;
    Has(p, Status, Some(Str(match op
                            case SessionPause => "PAUSED"
                            case SessionResume => "ACTIVE"
                            case _ => "FINISHED")))
    && row'.version == Some(VersionAfter(row)) && Has(p, Version, Some(Num(VersionAfter(row))))
    && Has(p, PendingCloud, Some(Bool(true)))
    && (op == SessionPause ==> Has(p, PausedAt, Some(Str(at))))
    && (op == SessionResume ==> Has(p, PausedAt, Some(Null)))
    && (op == SessionEnd ==> Has(p, FinishedAt, Some(Str(at))) && Has(p, PausedAt, Given(row.payload, PausedAt)))
    && (op != SessionEnd ==> Has(p, FinishedAt, Given(row.payload, FinishedAt)))
    && forall f | f !in {Status, Version, PendingCloud, PausedAt, FinishedAt} :: Has(p, f, Given(row.payload, f))
  }

  lemma MovedRow(op: Operation, row: CacheRow, at: string, row': CacheRow)
    requires op in {SessionPause, SessionResume, SessionEnd} && row'.version == Some(VersionAfter(row))
    requires forall f :: Has(row'.payload, f, MovedField(op, row, at, f))
    ensures MovedAs(op, row, at, row')
  {
    var p := row'.payload;
    assert Has(p, Status, MovedField(op, row, at, Status)) && Has(p, Version, MovedField(op, row, at, Version));
    assert Has(p, PendingCloud, MovedField(op, row, at, PendingCloud));
    assert Has(p, PausedAt, MovedField(op, row, at, PausedAt))
        && Has(p, FinishedAt, MovedField(op, row, at, FinishedAt));
    forall f | f !in {Status, Version, PendingCloud, PausedAt, FinishedAt} ensures Has(p, f, Given(row.payload, f)) {
      assert Has(p, f, MovedField(op, row, at, f));
    }
  }
}
