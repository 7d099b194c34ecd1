/** A hub that has taken in its first snapshot, with an owner and a free resource, and the commands of that owner: the
    ground on which counterexamples start. */
module SampleHub {
  import opened Options
  import opened Text
  import opened ContinuityData
  import opened Projection
  import opened Continuity
  import EdgeStore
  import MinorUnits

  const EMPTY_TABLES := Tables(None, map[], [], map[], map[])

  const SHOP := "shop-1"
  const OWNER: Payload := map[Id := Str("u"), Role := Str("OWNER")]
  const FREE: Payload := map[Id := Str("r")]
  const SHOP_ROW: Payload := map[Id := Str(SHOP)]

  const FIRST_SNAPSHOT := Snapshot(SHOP, map[Venue := [SHOP_ROW], Operator := [OWNER], Resource := [FREE]])

  const VENUE_ONLY: Cache := map[(Venue, SHOP) := CacheRow(None, SHOP_ROW)]
  const STAFFED: Cache := VENUE_ONLY[(Operator, "u") := CacheRow(None, OWNER)]
  const CACHE: Cache := STAFFED[(Resource, "r") := CacheRow(None, FREE)]

  const HUB := Tables(Some(SHOP), CACHE, [], map[], map[])

  lemma Plain(s: string)
    requires s != "" && !IsSpace(s[0]) && !IsSpace(s[|s| - 1])
    ensures Trim(s) == s
  {
  }

  lemma OneRowLoads(cache: Cache, kind: Kind, row: Payload, id: string)
    requires Required(row, Id) == id && id != "" && (kind, id) !in cache
    ensures InsertRows(cache, kind, [row]) == Loaded(cache[(kind, id) := SnapshotRow(row)])
  {
    assert [row][..0] == [];
  }

  /** Loading the n-th kind into a cache that has no row of it. */
  lemma KindLoads(s: Snapshot, kinds: seq<Kind>, n: nat, next: nat, rows: seq<Payload>, before: Cache, after: Cache)
    requires n < |kinds| && next == n + 1 && RowsOf(s, kinds[n]) == rows
    requires LoadKinds(map[], s, kinds[..n]) == Loaded(before) && forall k | k in before :: k.0 != kinds[n]
    requires InsertRows(before, kinds[n], rows) == Loaded(after)
    ensures LoadKinds(map[], s, kinds[..next]) == Loaded(after)
  {
    LoadStep(map[], s, kinds, n, next);
    assert ClearKind(before, kinds[n]) == before;
  }

  /** Kinds without rows, from the n-th on, add nothing. */
  lemma {:induction false} EmptyKindsLoad(s: Snapshot, kinds: seq<Kind>, n: nat, cache: Cache)
    requires n <= |kinds| && LoadKinds(map[], s, kinds[..n]) == Loaded(cache)
    requires forall i | n <= i < |kinds| :: RowsOf(s, kinds[i]) == [] && forall k | k in cache :: k.0 != kinds[i]
    ensures LoadKinds(map[], s, kinds) == Loaded(cache)
    decreases |kinds| - n
  {
    if n == |kinds| {
      assert kinds[..n] == kinds;
    } else {
      KindLoads(s, kinds, n, n + 1, [], cache, cache);
      EmptyKindsLoad(s, kinds, n + 1, cache);
    }
  }

  lemma StaffLoads(s: Snapshot, kinds: seq<Kind>)
    requires |kinds| > 3 && kinds[0] == Venue && kinds[1] == Device && kinds[2] == Operator
    requires RowsOf(s, Venue) == [SHOP_ROW] && RowsOf(s, Device) == [] && RowsOf(s, Operator) == [OWNER]
    ensures LoadKinds(map[], s, kinds[..3]) == Loaded(STAFFED)
  {
    Plain(SHOP);
    Plain("u");
    OneRowLoads(map[], Venue, SHOP_ROW, SHOP);
    KindLoads(s, kinds, 0, 1, [SHOP_ROW], map[], VENUE_ONLY);
    KindLoads(s, kinds, 1, 2, [], VENUE_ONLY, VENUE_ONLY);
    OneRowLoads(VENUE_ONLY, Operator, OWNER, "u");
    KindLoads(s, kinds, 2, 3, [OWNER], VENUE_ONLY, STAFFED);
  }

  lemma StaffedHasNoResource()
    ensures forall k | k in STAFFED :: k.0 != Resource
  {
  }

  lemma ResourceLoads(s: Snapshot, kinds: seq<Kind>)
    requires |kinds| > 3 && kinds[3] == Resource && RowsOf(s, Resource) == [FREE]
    requires LoadKinds(map[], s, kinds[..3]) == Loaded(STAFFED)
    ensures LoadKinds(map[], s, kinds[..4]) == Loaded(CACHE)
  {
    Plain("r");
    StaffedHasNoResource();
    OneRowLoads(STAFFED, Resource, FREE, "r");
    KindLoads(s, kinds, 3, 4, [FREE], STAFFED, CACHE);
  }

  lemma CachedKinds()
    ensures forall k | k in CACHE :: k.0 in {Venue, Operator, Resource}
  {
  }

  lemma OtherKindsAreEmpty(i: nat)
    requires 4 <= i < |SNAPSHOT_KINDS|
    ensures RowsOf(FIRST_SNAPSHOT, SNAPSHOT_KINDS[i]) == [] && SNAPSHOT_KINDS[i] !in {Venue, Operator, Resource}
  {
  }

  lemma SnapshotGivesHub()
    ensures ApplySnapshot(EMPTY_TABLES, FIRST_SNAPSHOT) == (HUB, None)
  {
    KindsLoad();
    assert SHOP[0] == 's';
  }

  lemma KindsLoad()
    ensures LoadKinds(map[], FIRST_SNAPSHOT, SNAPSHOT_KINDS) == Loaded(CACHE)
  {
    StaffLoads(FIRST_SNAPSHOT, SNAPSHOT_KINDS);
    ResourceLoads(FIRST_SNAPSHOT, SNAPSHOT_KINDS);
    CachedKinds();
    forall i | 4 <= i < |SNAPSHOT_KINDS|
      ensures RowsOf(FIRST_SNAPSHOT, SNAPSHOT_KINDS[i]) == [] && forall k | k in CACHE :: k.0 != SNAPSHOT_KINDS[i]
    {
      OtherKindsAreEmpty(i);
    }
    EmptyKindsLoad(FIRST_SNAPSHOT, SNAPSHOT_KINDS, 4, CACHE);
  }

  // ---------- Commands of the owner ----------

  function Uuid(letter: char): string {
    seq(36, i => if i in {8, 13, 18, 23} then '-' else if i == 14 then '4' else if i == 19 then '8' else letter)
  }

  function OwnerInput(op: Operation, letter: char, aggregateId: string, payload: Payload): CommandInput {
    CommandInput(op, None, Uuid(letter), "pos-a", "Aggregate", aggregateId, None, payload, None,
        "2026-01-01T10:00:00Z", true, None)
  }

  function OwnerEnvelope(letter: char, aggregateId: string): Envelope {
    Envelope(SHOP, "pos-a", "Aggregate", aggregateId, Uuid(letter))
  }

  /** The tables after first snapshot and commands under the ids of these letters, with other rows in the cache
      perhaps. */
  ghost predicate Staffed(t: Tables, letters: string) {
    t.shopId == Some(SHOP)
    && (Operator, "u") in t.cache && t.cache[(Operator, "u")] == CacheRow(None, OWNER)
    && (Resource, "r") in t.cache && t.cache[(Resource, "r")] == CacheRow(None, FREE)
    && |t.commands| == |letters|
    && forall i | 0 <= i < |letters| ::
         t.commands[i].operationId == Uuid(letters[i]) && t.commands[i].idempotencyKey == Uuid(letters[i])
  }

  lemma EnvelopeFits(op: Operation, letter: char, aggregateId: string, payload: Payload)
    requires Certified(op) && EdgeStore.IsHex(letter)
    requires aggregateId != "" && !IsSpace(aggregateId[0]) && !IsSpace(aggregateId[|aggregateId| - 1])
    ensures CheckEnvelope(Some(SHOP), OwnerInput(op, letter, aggregateId, payload))
         == OwnerEnvelope(letter, aggregateId)
  {
    Plain(SHOP);
    Plain("pos-a");
    Plain("Aggregate");
    Plain(aggregateId);
  }

  lemma OwnerMay(cache: Cache, op: Operation, payload: Payload)
    requires (Operator, "u") in cache && cache[(Operator, "u")] == CacheRow(None, OWNER)
    requires OperatorUserId in payload && payload[OperatorUserId] == Str("u")
    ensures PermissionFault(cache, op, payload) == None
  {
    Plain("u");
  }

  lemma NewLetter(t: Tables, letters: string, letter: char)
    requires Staffed(t, letters) && letter !in letters
    ensures FindCommand(t.commands, Uuid(letter)) == None && !KeyTaken(t.commands, SHOP, Uuid(letter))
  {
    forall i | 0 <= i < |t.commands| ensures Uuid(letters[i]) != Uuid(letter) {
      assert Uuid(letters[i])[0] != Uuid(letter)[0];
    }
  }

  /** A command of the owner under a new id is accepted when its projection is. */
  lemma OwnerCommand(t: Tables, letters: string, op: Operation, letter: char, aggregateId: string, payload: Payload)
    requires Staffed(t, letters) && letter !in letters && Certified(op) && EdgeStore.IsHex(letter)
    requires aggregateId != "" && !IsSpace(aggregateId[0]) && !IsSpace(aggregateId[|aggregateId| - 1])
    requires OperatorUserId in payload && payload[OperatorUserId] == Str("u")
    requires ProjectInput(t, OwnerInput(op, letter, aggregateId, payload),
        OwnerEnvelope(letter, aggregateId)).Projected?
    ensures var input, e := OwnerInput(op, letter, aggregateId, payload), OwnerEnvelope(letter, aggregateId);
            var projected := ProjectInput(t, input, e);
            var c := NewCommand(input, e, NextSequence(t.commands, "pos-a"));
            CreateCommand(t, input)
              == (Tables(t.shopId, projected.cache, t.commands + [c], projected.ledger, t.conflicts), Created(c))
  {
    EnvelopeFits(op, letter, aggregateId, payload);
    OwnerMay(t.cache, op, payload);
    NewLetter(t, letters, letter);
  }

  // ---------- A cash payment of one yen ----------

  const ALLOCATION: Payload := map[SnapshotId := Str("x"), Amount := Str("1")]

  const PAYMENT: Payload := map[
    OperatorUserId := Str("u"), AmountMinor := Num(1), Currency := Str("JPY"), SettlementId := Str("s"),
    Allocations := List([Record(ALLOCATION)])]

  function PaymentInput(letter: char): CommandInput {
    OwnerInput(CashPayment, letter, "s", PAYMENT)
  }

  lemma OneYen()
    ensures MinorUnits.DecimalToMinor("1", "JPY") == MinorUnits.Minor(1)
  {
    Plain("JPY");
    UpperKeeps("JPY");
    assert MinorUnits.CurrencyScale("JPY") == 0;
    assert "" + MinorUnits.DecimalText("1", "") + "" == "1" && Blank("");
    assert MinorUnits.Writes("1", "1", "");
    assert "1" + "" == "1";
    assert !IsSpace("JPY"[0]);
    MinorUnits.DecimalExact("1", "JPY", "1", "", 1);
  }

  lemma SingleTotal(fields: Payload, currency: string, amount: string, minor: nat)
    requires Required(fields, SnapshotId) != "" && FieldText(fields, Amount) == amount
    requires MinorUnits.DecimalToMinor(amount, currency) == MinorUnits.Minor(minor)
    ensures AllocationTotal([Record(fields)], currency) == Sum(minor)
  {
    assert [Record(fields)][..0] == [];
  }

  lemma AllocationTexts()
    ensures Required(ALLOCATION, SnapshotId) != "" && FieldText(ALLOCATION, Amount) == "1"
  {
    Plain("x");
  }

  lemma AllocatesOneYen(fields: Payload, currency: string)
    requires fields == ALLOCATION && currency == "JPY"
    ensures AllocationTotal([Record(fields)], currency) == Sum(1)
  {
    OneYen();
    AllocationTexts();
    SingleTotal(fields, currency, "1", 1);
  }

  lemma LineOf(cache: Cache, payload: Payload, occurredAt: string, currency: string, settlementId: string,
      operatorId: string, items: seq<Value>, minor: nat)
    requires VenueCurrency(cache, SHOP) == None && minor > 0 && items != []
    requires Upper(Required(payload, Currency)) == currency != ""
    requires Required(payload, SettlementId) == settlementId != ""
    requires Required(payload, OperatorUserId) == operatorId != ""
    requires AmountMinor in payload && payload[AmountMinor] == Num(minor)
    requires Allocations in payload && payload[Allocations] == List(items)
    requires AllocationTotal(items, currency) == Sum(minor)
    ensures CashLine(cache, SHOP, payload, occurredAt)
         == (LedgerRow(SHOP, settlementId, minor, currency, operatorId, occurredAt, false), None)
  {
  }

  lemma PaymentTexts()
    ensures Upper(Required(PAYMENT, Currency)) == "JPY"
    ensures Required(PAYMENT, SettlementId) == "s" && Required(PAYMENT, OperatorUserId) == "u"
  {
    Plain("JPY");
    UpperKeeps("JPY");
    Plain("s");
    Plain("u");
  }

  lemma PaymentLine(cache: Cache, occurredAt: string)
    requires VenueCurrency(cache, SHOP) == None
    ensures CashLine(cache, SHOP, PAYMENT, occurredAt) == (LedgerRow(SHOP, "s", 1, "JPY", "u", occurredAt, false), None)
  {
    AllocatesOneYen(ALLOCATION, "JPY");
    PaymentTexts();
    LineOf(cache, PAYMENT, occurredAt, "JPY", "s", "u", [Record(ALLOCATION)], 1);
  }

  lemma PaymentProjects(t: Tables, letter: char)
    requires VenueCurrency(t.cache, SHOP) == None && t.ledger == map[]
    ensures ProjectInput(t, PaymentInput(letter), OwnerEnvelope(letter, "s")).Projected?
  {
    var at := PaymentInput(letter).occurredAt;
    PaymentLine(t.cache, at);
    CashIsCredited(t.cache, t.ledger, Uuid(letter), SHOP, "s", None, PAYMENT, at);
    NewLineIsCredited(t.cache, t.ledger, Uuid(letter), (LedgerRow(SHOP, "s", 1, "JPY", "u", at, false), None));
  }

  /** The first command of the hub is a payment. */
  lemma PaymentAccepted(hub: Tables, letter: char)
    requires Staffed(hub, "") && EdgeStore.IsHex(letter) && VenueCurrency(hub.cache, SHOP) == None
    requires hub.ledger == map[]
    ensures var (t', outcome) := CreateCommand(hub, PaymentInput(letter));
            outcome.Created? && t'.commands == [outcome.command] && outcome.command.operation == CashPayment
            && outcome.command.operationId == Uuid(letter) && outcome.command.state == Pending
  {
    PaymentProjects(hub, letter);
    assert !IsSpace("s"[0]);
    OwnerCommand(hub, "", CashPayment, letter, "s", PAYMENT);
  }

  lemma HubHasNoCurrency()
    ensures VenueCurrency(HUB.cache, SHOP) == None && Staffed(HUB, "") && HUB.ledger == map[]
  {
  }
}
