/** continuity.js: the transactions on the command log, the cash ledger and the conflict table, and what they keep. */
module Continuity {
  import opened Options
  import opened Text
  import opened ContinuityData
  import opened Projection
  import EdgeStore

  // ---------- createCommand ----------

  /** claimed is the payload that the caller's payloadHash stands for; dateOk says whether occurredAt parses. */
  datatype CommandInput = CommandInput(
    operation: Operation, venueId: Option<string>, operationId: string, deviceId: string, aggregateType: string,
    aggregateId: string, aggregateVersion: Option<int>, payload: Payload, claimed: Option<Payload>,
    occurredAt: string, dateOk: bool, idempotencyKey: Option<string>)

  datatype Envelope =
    | Envelope(venueId: string, deviceId: string, aggregateType: string, aggregateId: string, key: string)
    | Bad(fault: Fault)

  datatype Outcome = Created(command: Command) | Duplicate(command: Command) | Rejected(fault: Fault)

  function Slice160(s: string): string {
    if |s| > 160 then s[..160] else s
  }

  function CheckEnvelope(shopId: Option<string>, input: CommandInput): Envelope {
    var venueId := Trim(input.venueId.GetOr(shopId.GetOr("")));
    var deviceId := Trim(input.deviceId);
    var aggregateType, aggregateId := Trim(input.aggregateType), Trim(input.aggregateId);
    if !Certified(input.operation) then Bad(OfflineUnsupported)
    else if venueId == "" then Bad(MissingField)
    else if shopId.Some? && shopId.value != "" && shopId.value != venueId then Bad(TenantConflict)
    else if !EdgeStore.IsUuid(input.operationId) then Bad(NotUuid)
    else if deviceId == "" || aggregateType == "" || aggregateId == "" then Bad(MissingField)
    else if input.claimed.Some? && input.claimed.value != input.payload then Bad(HashMismatch)
    else if !input.dateOk then Bad(BadDate)
    else Envelope(venueId, deviceId, aggregateType, aggregateId,
        Slice160(input.idempotencyKey.GetOr(input.operationId)))
  }

  /** SELECT * FROM local_commands WHERE operation_id=? */
  function FindCommand(commands: seq<Command>, operationId: string): (i: Option<nat>)
    ensures i.Some? ==> i.value < |commands| && commands[i.value].operationId == operationId
    ensures i.None? ==> forall j | 0 <= j < |commands| :: commands[j].operationId != operationId
  {
    if commands == [] then None
    else
      var front := FindCommand(commands[..|commands| - 1], operationId);
      if front.Some? then front
      else if commands[|commands| - 1].operationId == operationId then Some(|commands| - 1) else None
  }

  /** SELECT COALESCE(MAX(local_sequence),0) FROM local_commands WHERE device_id=? */
  function MaxSequence(commands: seq<Command>, deviceId: string): nat {
    if commands == [] then 0
    else
      var front := MaxSequence(commands[..|commands| - 1], deviceId);
      var last := commands[|commands| - 1];
      if last.deviceId == deviceId && last.localSequence > front then last.localSequence else front
  }

  /** UNIQUE(venue_id, idempotency_key) */
  predicate KeyTaken(commands: seq<Command>, venueId: string, key: string) {
    exists i | 0 <= i < |commands| :: commands[i].venueId == venueId && commands[i].idempotencyKey == key
  }

  predicate SameRequest(c: Command, input: CommandInput, e: Envelope)
    requires e.Envelope?
  {
    c.payload == input.payload && c.operation == input.operation && c.aggregateId == e.aggregateId
        && c.deviceId == e.deviceId
  }

  function NewCommand(input: CommandInput, e: Envelope, sequence: nat): Command
    requires e.Envelope?
  {
    Command(input.operationId, e.deviceId, e.venueId, sequence, e.key, input.operation, e.aggregateType, e.aggregateId,
            input.aggregateVersion, input.payload, input.occurredAt, Pending, 0)
  }

  function ProjectInput(t: Tables, input: CommandInput, e: Envelope): Projected
    requires e.Envelope?
  {
    Project(t.cache, t.ledger, input.operation, input.operationId, e.venueId, e.aggregateId,
            input.aggregateVersion, input.payload, input.occurredAt)
  }

  function NextSequence(commands: seq<Command>, deviceId: string): nat {
    MaxSequence(commands, deviceId) + 1
  }

  /** createCommand as one step; a rejected command leaves every table as it was. */
  function CreateCommand(t: Tables, input: CommandInput): (Tables, Outcome) {
    CreateChecked(t, input, CheckEnvelope(t.shopId, input))
  }

  /** createCommand after its checks of the input. */
  function CreateChecked(t: Tables, input: CommandInput, e: Envelope): (Tables, Outcome) {
    if e.Bad? then (t, Rejected(e.fault))
    else
      var existing := FindCommand(t.commands, input.operationId);
      if existing.Some? then
        var c := t.commands[existing.value];
        (t, if SameRequest(c, input, e) then Duplicate(c) else Rejected(IdempotencyConflict))
      else
        var denied := PermissionFault(t.cache, input.operation, input.payload);
        if denied.Some? then (t, Rejected(denied.value))
        else
          match ProjectInput(t, input, e)
          case Failed(fault) => (t, Rejected(fault))
          case Projected(cache, ledger) =>
            if KeyTaken(t.commands, e.venueId, e.key) then (t, Rejected(UniqueViolation))
            else
              var c := NewCommand(input, e, NextSequence(t.commands, e.deviceId));
              (Tables(t.shopId, cache, t.commands + [c], ledger, t.conflicts), Created(c))
  }

  // ---------- Outcomes of the replay ----------

  function SetState(commands: seq<Command>, operationId: string, state: CommandState, tries: nat): (r: seq<Command>)
    ensures |r| == |commands|
  {
    seq(|commands|, i requires 0 <= i < |commands| =>
      if commands[i].operationId == operationId then
          commands[i].(state := state, attempts := commands[i].attempts + tries)
      else commands[i])
  }

  /** markSynced, its first and its second statement; no transaction holds them together. */
  function SyncCommand(t: Tables, operationId: string): Tables {
    t.(commands := SetState(t.commands, operationId, Synced, 1))
  }

  function SyncLedger(t: Tables, operationId: string): Tables {
    t.(ledger := if operationId in t.ledger then t.ledger[operationId := t.ledger[operationId].(synced := true)]
                 else t.ledger)
  }

  function MarkSynced(t: Tables, operationId: string): Tables {
    SyncLedger(SyncCommand(t, operationId), operationId)
  }

  function MarkRetry(t: Tables, operationId: string): Tables {
    t.(commands := SetState(t.commands, operationId, Retry, 1))
  }

  /** markConflict, likewise two statements. */
  function ConflictCommand(t: Tables, operationId: string): Tables {
    t.(commands := SetState(t.commands, operationId, Conflict, 1))
  }

  function RecordConflict(t: Tables, operationId: string, op: Operation, code: string): Tables {
    var resolution := if operationId in t.conflicts then t.conflicts[operationId].resolution else None;
    t.(conflicts := t.conflicts[operationId := ConflictRow(ConflictClass(op, code), code, resolution)])
  }

  function MarkConflict(t: Tables, operationId: string, op: Operation, code: string): Tables {
    RecordConflict(ConflictCommand(t, operationId), operationId, op, code)
  }

  /** The two UPDATEs of resolveConflict. */
  function RecordResolution(t: Tables, operationId: string, resolution: Resolution): Tables {
    t.(conflicts := if operationId in t.conflicts
                    then t.conflicts[operationId := t.conflicts[operationId].(resolution := Some(resolution))]
                    else t.conflicts)
  }

  function BuryCommand(t: Tables, operationId: string): Tables {
    t.(commands := SetState(t.commands, operationId, DeadLetter, 0))
  }

  function ResolveConflict(t: Tables, operationId: string, resolution: Resolution): (r: (Tables, Option<Fault>)) {
    var at := FindCommand(t.commands, operationId);
    if at.None? || !t.commands[at.value].state.Conflict? then (t, Some(ConflictNotFound))
    else if NeverAutoMerge(t.commands[at.value].operation) && resolution.AutoMerge? then
        (t, Some(FinancialManualReview))
    else (BuryCommand(RecordResolution(t, operationId, resolution), operationId), None)
  }

  // ---------- applySnapshot ----------

  /** A venue snapshot: its venue id and the rows of each cached kind it replaces. */
  datatype Snapshot = Snapshot(venueId: string, rows: map<Kind, seq<Payload>>)

  const SNAPSHOT_KINDS: seq<Kind> := [Venue, Device, Operator, Resource, Rate, Catalog, Check, Session, Kds]

  function RowsOf(s: Snapshot, kind: Kind): seq<Payload> {
    if kind in s.rows then s.rows[kind] else []
  }

  function SnapshotRow(row: Payload): CacheRow {
    CacheRow(if Version in row && row[Version].Num? then Some(row[Version].n) else None, row)
  }

  datatype Loaded = Loaded(cache: Cache) | Broken(fault: Fault)

  /** Inserting rows one by one: an id is required, and (kind, entity_id) is the primary key. */
  function InsertRows(cache: Cache, kind: Kind, rows: seq<Payload>): Loaded {
    if rows == [] then Loaded(cache)
    else
      var before := InsertRows(cache, kind, rows[..|rows| - 1]);
      if before.Broken? then before else InsertRow(before.cache, kind, rows[|rows| - 1])
  }

  function InsertRow(cache: Cache, kind: Kind, row: Payload): Loaded {
    var id := Required(row, Id);
    if id == "" then Broken(MissingField)
    else if (kind, id) in cache then Broken(UniqueViolation)
    else Loaded(cache[(kind, id) := SnapshotRow(row)])
  }

  function ClearKind(cache: Cache, kind: Kind): Cache {
    map k | k in cache && k.0 != kind :: cache[k]
  }

  function LoadKinds(cache: Cache, s: Snapshot, kinds: seq<Kind>): Loaded {
    if kinds == [] then Loaded(cache)
    else
      var before := LoadKinds(cache, s, kinds[..|kinds| - 1]);
      var kind := kinds[|kinds| - 1];
      if before.Broken? then before else InsertRows(ClearKind(before.cache, kind), kind, RowsOf(s, kind))
  }

  lemma LoadStep(cache: Cache, s: Snapshot, kinds: seq<Kind>, n: nat, next: nat)
    requires n < |kinds| && next == n + 1 && LoadKinds(cache, s, kinds[..n]).Loaded?
    ensures LoadKinds(cache, s, kinds[..next])
         == InsertRows(ClearKind(LoadKinds(cache, s, kinds[..n]).cache, kinds[n]), kinds[n], RowsOf(s, kinds[n]))
  {
    assert kinds[..next][..n] == kinds[..n];
  }

  /** The meta rows are written before the transaction of the cache. */
  function RecordShop(t: Tables, s: Snapshot): Tables {
    t.(shopId := Some(s.venueId))
  }

  /** applySnapshot; a snapshot that fails part-way leaves the cache as it was, but the shop id stays recorded. */
  function ApplySnapshot(t: Tables, s: Snapshot): (r: (Tables, Option<Fault>)) {
    if s.venueId == "" then (t, Some(MissingField))
    else if t.shopId.Some? && t.shopId.value != "" && t.shopId.value != s.venueId then (t, Some(TenantConflict))
    else
      var recorded := RecordShop(t, s);
      match LoadKinds(t.cache, s, SNAPSHOT_KINDS)
      case Broken(fault) => (recorded, Some(fault))
      case Loaded(cache) => (recorded.(cache := cache), None)
  }

  /** A crash between the two. */
  function CutSnapshot(t: Tables, s: Snapshot): Tables {
    if s.venueId == "" || (t.shopId.Some? && t.shopId.value != "" && t.shopId.value != s.venueId) then t
    else RecordShop(t, s)
  }

  // ---------- The command log ----------

  predicate Done(c: Command) {
    !c.state.Pending? && !c.state.Retry?
  }

  function CountDevice(commands: seq<Command>, deviceId: string): nat {
    if commands == [] then 0
    else
      var last := commands[|commands| - 1];
      CountDevice(commands[..|commands| - 1], deviceId) + if last.deviceId == deviceId then 1 else 0
  }

  /** Each command carries the next number of its device. */
  ghost predicate Numbered(commands: seq<Command>) {
    forall i | 0 <= i < |commands| :: commands[i].localSequence == CountDevice(commands[..i], commands[i].deviceId) + 1
  }

  ghost predicate UniqueIds(commands: seq<Command>) {
    forall i, j | 0 <= i < j < |commands| :: commands[i].operationId != commands[j].operationId
  }

  /** Per device, the commands with a final answer come before the ones without. */
  ghost predicate PrefixDone(commands: seq<Command>) {
    forall i, j | 0 <= i < j < |commands| && commands[i].deviceId == commands[j].deviceId ::
          Done(commands[j]) ==> Done(commands[i])
  }

  lemma PrefixNumbered(commands: seq<Command>)
    requires commands != [] && Numbered(commands)
    ensures Numbered(commands[..|commands| - 1])
  {
    var front := commands[..|commands| - 1];
    forall i | 0 <= i < |front| ensures front[i].localSequence == CountDevice(front[..i], front[i].deviceId) + 1 {
      assert front[..i] == commands[..i];
    }
  }

  lemma {:induction false} MaxIsCount(commands: seq<Command>, deviceId: string)
    requires Numbered(commands)
    ensures MaxSequence(commands, deviceId) == CountDevice(commands, deviceId)
  {
    if commands != [] {
      PrefixNumbered(commands);
      MaxIsCount(commands[..|commands| - 1], deviceId);
    }
  }

  lemma {:induction false} CountMonotone(commands: seq<Command>, deviceId: string, i: nat, j: nat)
    requires i <= j <= |commands|
    ensures CountDevice(commands[..i], deviceId) <= CountDevice(commands[..j], deviceId)
  {
    if i < j {
      assert commands[..j][..j - 1] == commands[..j - 1];
      CountMonotone(commands, deviceId, i, j - 1);
    }
  }

  /** A device's numbers grow in insertion order. */
  lemma SequenceOrder(commands: seq<Command>, i: nat, j: nat)
    requires Numbered(commands) && i < j < |commands| && commands[i].deviceId == commands[j].deviceId
    ensures commands[i].localSequence < commands[j].localSequence
  {
    assert commands[..i + 1][..i] == commands[..i];
    CountMonotone(commands, commands[i].deviceId, i + 1, j);
  }

  ghost predicate HasNumber(commands: seq<Command>, deviceId: string, s: nat) {
    exists i :: 0 <= i < |commands| && commands[i].deviceId == deviceId && commands[i].localSequence == s
  }

  lemma HasNumberNext(front: seq<Command>, last: Command, deviceId: string, s: nat)
    ensures HasNumber(front + [last], deviceId, s) <==>
              HasNumber(front, deviceId, s) || (last.deviceId == deviceId && last.localSequence == s)
  {
    var commands := front + [last];
    assert commands[|front|] == last;
    if HasNumber(front, deviceId, s) {
      var i :| 0 <= i < |front| && front[i].deviceId == deviceId && front[i].localSequence == s;
      assert commands[i] == front[i];
    }
    if HasNumber(commands, deviceId, s) {
      var i :| 0 <= i < |commands| && commands[i].deviceId == deviceId && commands[i].localSequence == s;
      assert i < |front| ==> commands[i] == front[i];
    }
  }

  /** A device's numbers are exactly 1 to n. */
  lemma {:induction false} SequencesGapless(commands: seq<Command>, deviceId: string, s: nat)
    requires Numbered(commands)
    ensures 1 <= s <= CountDevice(commands, deviceId) <==> HasNumber(commands, deviceId, s)
  {
    if commands != [] {
      var front, last := commands[..|commands| - 1], commands[|commands| - 1];
      PrefixNumbered(commands);
      SequencesGapless(front, deviceId, s);
      assert commands == front + [last];
      HasNumberNext(front, last, deviceId, s);
      assert last.localSequence == CountDevice(front, last.deviceId) + 1;
    }
  }

  lemma {:induction false} SameDevicesCount(a: seq<Command>, b: seq<Command>, deviceId: string)
    requires |a| == |b| && forall i | 0 <= i < |a| :: a[i].deviceId == b[i].deviceId
    ensures CountDevice(a, deviceId) == CountDevice(b, deviceId)
  {
    if a != [] {
      SameDevicesCount(a[..|a| - 1], b[..|b| - 1], deviceId);
    }
  }

  ghost predicate LogInv(commands: seq<Command>) {
    UniqueIds(commands) && Numbered(commands) && PrefixDone(commands)
  }

  lemma SetStateNumbered(commands: seq<Command>, operationId: string, state: CommandState, tries: nat)
    requires UniqueIds(commands) && Numbered(commands)
    ensures UniqueIds(SetState(commands, operationId, state, tries))
    ensures Numbered(SetState(commands, operationId, state, tries))
  {
    var r := SetState(commands, operationId, state, tries);
    forall i | 0 <= i < |r| ensures r[i].localSequence == CountDevice(r[..i], r[i].deviceId) + 1 {
      SameDevicesCount(commands[..i], r[..i], r[i].deviceId);
    }
    forall i, j | 0 <= i < j < |r| ensures r[i].operationId != r[j].operationId {
      assert commands[i].operationId != commands[j].operationId;
    }
  }

  lemma SetStateAt(commands: seq<Command>, i: nat, state: CommandState, tries: nat)
    requires UniqueIds(commands) && i < |commands|
    ensures var r := SetState(commands, commands[i].operationId, state, tries);
            r == commands[i := commands[i].(state := state, attempts := commands[i].attempts + tries)]
  {
    var r := SetState(commands, commands[i].operationId, state, tries);
    forall j | 0 <= j < |commands| && j != i ensures r[j] == commands[j] {
      assert commands[j].operationId != commands[i].operationId;
    }
  }

  lemma AppendKeepsLog(commands: seq<Command>, c: Command)
    requires LogInv(commands) && !Done(c) && c.localSequence == NextSequence(commands, c.deviceId)
    requires forall j | 0 <= j < |commands| :: commands[j].operationId != c.operationId
    ensures LogInv(commands + [c])
  {
    MaxIsCount(commands, c.deviceId);
    var more := commands + [c];
    forall i | 0 <= i < |more| ensures more[i].localSequence == CountDevice(more[..i], more[i].deviceId) + 1 {
      assert more[..i] == commands[..i];
      assert commands[..|commands|] == commands;
    }
  }

  lemma CreatedRow(t: Tables, input: CommandInput, e: Envelope)
    ensures var (t', outcome) := CreateChecked(t, input, e);
            if !outcome.Created? then t'.commands == t.commands
            else
              var c := outcome.command;
              t'.commands == t.commands + [c] && c.state == Pending
                  && c.localSequence == NextSequence(t.commands, c.deviceId)
              && forall j | 0 <= j < |t.commands| :: t.commands[j].operationId != c.operationId
  {
  }

  /** The new command goes last, is pending, and takes the next number of its device. */
  lemma CreateKeepsLog(t: Tables, input: CommandInput)
    requires LogInv(t.commands)
    ensures LogInv(CreateCommand(t, input).0.commands)
  {
    var (t', outcome) := CreateCommand(t, input);
    CreatedRow(t, input, CheckEnvelope(t.shopId, input));
    if outcome.Created? {
      AppendKeepsLog(t.commands, outcome.command);
    }
  }

  /** Answering the first open command of a device keeps the order. */
  lemma AnswerKeepsLog(commands: seq<Command>, i: nat, state: CommandState)
    requires LogInv(commands) && i < |commands|
    requires forall j | 0 <= j < i && commands[j].deviceId == commands[i].deviceId :: Done(commands[j])
    requires state.Synced? || state.Conflict? || state.DeadLetter?
    ensures forall tries :: LogInv(SetState(commands, commands[i].operationId, state, tries))
  {
    forall tries ensures LogInv(SetState(commands, commands[i].operationId, state, tries)) {
      SetStateNumbered(commands, commands[i].operationId, state, tries);
      SetStateAt(commands, i, state, tries);
    }
  }

  /** Settling any command keeps the device order exactly when all earlier commands of the device are done. */
  lemma SettleKeepsOrderExactly(commands: seq<Command>, i: nat, state: CommandState, tries: nat)
    requires LogInv(commands) && i < |commands| && (state.Synced? || state.Conflict? || state.DeadLetter?)
    ensures PrefixDone(SetState(commands, commands[i].operationId, state, tries)) <==>
              forall j | 0 <= j < i && commands[j].deviceId == commands[i].deviceId :: Done(commands[j])
  {
    SetStateAt(commands, i, state, tries);
    var r := SetState(commands, commands[i].operationId, state, tries);
    if PrefixDone(r) {
      forall j | 0 <= j < i && commands[j].deviceId == commands[i].deviceId ensures Done(commands[j]) {
        assert r[j] == commands[j] && Done(r[i]);
      }
    }
  }

  /** Putting a command back to RETRY keeps the device order exactly when no later command of the device is done. */
  lemma RetryKeepsOrderExactly(t: Tables, i: nat)
    requires LogInv(t.commands) && i < |t.commands|
    ensures PrefixDone(MarkRetry(t, t.commands[i].operationId).commands) <==>
              forall j | i < j < |t.commands| && t.commands[j].deviceId == t.commands[i].deviceId ::
                    !Done(t.commands[j])
  {
    SetStateAt(t.commands, i, Retry, 1);
    var r := MarkRetry(t, t.commands[i].operationId).commands;
    if PrefixDone(r) {
      forall j | i < j < |t.commands| && t.commands[j].deviceId == t.commands[i].deviceId ensures !Done(t.commands[j]) {
        assert r[j] == t.commands[j] && !Done(r[i]);
      }
    }
  }

  // ---------- Agreement of the tables ----------

  predicate IsCash(c: Command) {
    c.operation.CashPayment?
  }

  /** A ledger row holds the amount its command asked for, which is the exact total of its allocations. */
  ghost predicate AmountFits(row: LedgerRow, payload: Payload) {
    match row
    case LedgerRow(_, _, amountMinor, currency, _, _, _) =>
      AmountMinor in payload && payload[AmountMinor] == Num(amountMinor) && amountMinor > 0
      && Allocations in payload && payload[Allocations].List?
      && AllocationTotal(payload[Allocations].items, currency) == Sum(amountMinor)
  }

  /** What the other tables hold for one command. */
  ghost predicate RowsFit(t: Tables, c: Command) {
    (IsCash(c) <==> c.operationId in t.ledger)
    && (IsCash(c) ==>
          AmountFits(t.ledger[c.operationId], c.payload) && (t.ledger[c.operationId].synced <==> c.state.Synced?))
    && (c.operationId in t.conflicts <==> c.state.Conflict? || c.state.DeadLetter?)
    && (c.operationId in t.conflicts ==>
          (t.conflicts[c.operationId].resolution.None? <==> c.state.Conflict?)
          && (t.conflicts[c.operationId].resolution == Some(AutoMerge) ==> !NeverAutoMerge(c.operation)))
  }

  ghost predicate HasCommand(commands: seq<Command>, operationId: string) {
    exists i | 0 <= i < |commands| :: commands[i].operationId == operationId
  }

  ghost predicate TablesAgree(t: Tables) {
    && (forall i | 0 <= i < |t.commands| :: RowsFit(t, t.commands[i]))
    && (forall id | id in t.ledger :: HasCommand(t.commands, id))
    && (forall id | id in t.conflicts :: HasCommand(t.commands, id))
  }

  lemma CashLineFits(cache: Cache, venueId: string, payload: Payload, occurredAt: string)
    requires CashLine(cache, venueId, payload, occurredAt).1.None?
    ensures AmountFits(CashLine(cache, venueId, payload, occurredAt).0, payload)
    ensures !CashLine(cache, venueId, payload, occurredAt).0.synced
  {
  }

  lemma CreditShape(cache: Cache, ledger: map<string, LedgerRow>, operationId: string, r: (LedgerRow, Option<Fault>),
      payload: Payload)
    requires r.1.None? ==> AmountFits(r.0, payload) && !r.0.synced
    ensures var p := Credit(cache, ledger, operationId, r);
            p.Projected? ==>
              operationId !in ledger && operationId in p.ledger
                  && p.ledger == ledger[operationId := p.ledger[operationId]]
              && AmountFits(p.ledger[operationId], payload) && !p.ledger[operationId].synced && p.cache == cache
  {
  }

  lemma CashCredit(cache: Cache, ledger: map<string, LedgerRow>, operationId: string, venueId: string,
      payload: Payload, occurredAt: string)
    ensures var p := Credit(cache, ledger, operationId, CashLine(cache, venueId, payload, occurredAt));
            p.Projected? ==>
              operationId !in ledger && operationId in p.ledger
                  && p.ledger == ledger[operationId := p.ledger[operationId]]
              && AmountFits(p.ledger[operationId], payload) && !p.ledger[operationId].synced && p.cache == cache
  {
    var r := CashLine(cache, venueId, payload, occurredAt);
    if r.1.None? {
      CashLineFits(cache, venueId, payload, occurredAt);
    }
    CreditShape(cache, ledger, operationId, r, payload);
  }

  /** What a projection does to the ledger: it adds the exact row of a cash payment and touches nothing else. */
  lemma ProjectLedger(
    cache: Cache, ledger: map<string, LedgerRow>, op: Operation, operationId: string, venueId: string,
    aggregateId: string, expected: Option<int>, payload: Payload, occurredAt: string)
    ensures var r := Project(cache, ledger, op, operationId, venueId, aggregateId, expected, payload, occurredAt);
            r.Projected? ==>
              if op.CashPayment?
              then operationId !in ledger && operationId in r.ledger
                  && r.ledger == ledger[operationId := r.ledger[operationId]]
                   && AmountFits(r.ledger[operationId], payload) && !r.ledger[operationId].synced && r.cache == cache
              else r.ledger == ledger
  {
    if op.CashPayment? {
      CashCredit(cache, ledger, operationId, venueId, payload, occurredAt);
    }
  }

  lemma CreateShape(t: Tables, input: CommandInput)
    requires CreateCommand(t, input).1.Created?
    ensures var (t', outcome) := CreateCommand(t, input);
            var c := outcome.command;
            t'.commands == t.commands + [c] && t'.conflicts == t.conflicts && t'.shopId == t.shopId
            && c.operationId == input.operationId && c.operation == input.operation && c.payload == input.payload
            && c.state == Pending && Certified(c.operation)
            && (forall j | 0 <= j < |t.commands| :: t.commands[j].operationId != c.operationId)
            && (if IsCash(c)
                then c.operationId !in t.ledger && c.operationId in t'.ledger
                    && t'.ledger == t.ledger[c.operationId := t'.ledger[c.operationId]]
                     && AmountFits(t'.ledger[c.operationId], c.payload) && !t'.ledger[c.operationId].synced
                else t'.ledger == t.ledger)
  {
    var e := CheckEnvelope(t.shopId, input);
    ProjectLedger(t.cache, t.ledger, input.operation, input.operationId, e.venueId, e.aggregateId,
                  input.aggregateVersion, input.payload, input.occurredAt);
  }

  lemma CreateKeepsAgreement(t: Tables, input: CommandInput)
    requires LogInv(t.commands) && TablesAgree(t)
    ensures TablesAgree(CreateCommand(t, input).0)
  {
    if CreateCommand(t, input).1.Created? {
      CreateShape(t, input);
      AddedCommandAgrees(t, CreateCommand(t, input).0, CreateCommand(t, input).1.command);
    }
  }

  lemma AddedCommandAgrees(t: Tables, t': Tables, c: Command)
    requires TablesAgree(t)
    requires t'.commands == t.commands + [c] && t'.conflicts == t.conflicts && c.state == Pending
    requires forall j | 0 <= j < |t.commands| :: t.commands[j].operationId != c.operationId
    requires if IsCash(c)
             then c.operationId in t'.ledger && t'.ledger == t.ledger[c.operationId := t'.ledger[c.operationId]]
                  && AmountFits(t'.ledger[c.operationId], c.payload) && !t'.ledger[c.operationId].synced
             else t'.ledger == t.ledger
    ensures TablesAgree(t')
  {
    assert !HasCommand(t.commands, c.operationId);
    assert t'.commands[|t.commands|] == c;
    forall i | 0 <= i < |t'.commands| ensures RowsFit(t', t'.commands[i]) {
      if i < |t.commands| {
        assert RowsFit(t, t.commands[i]);
      }
    }
    forall id | HasCommand(t.commands, id) ensures HasCommand(t'.commands, id) {
      var i :| 0 <= i < |t.commands| && t.commands[i].operationId == id;
      assert t'.commands[i].operationId == id;
    }
  }

  /** Changing one command and its own rows keeps agreement when the changed rows fit. */
  lemma ChangedCommandAgrees(t: Tables, t': Tables, i: nat)
    requires UniqueIds(t.commands) && TablesAgree(t) && i < |t.commands| && |t'.commands| == |t.commands|
    requires t'.commands[i].operationId == t.commands[i].operationId
    requires forall j | 0 <= j < |t.commands| && j != i :: t'.commands[j] == t.commands[j]
    requires forall id | id != t.commands[i].operationId ::
               (id in t'.ledger <==> id in t.ledger) && (id in t.ledger ==> t'.ledger[id] == t.ledger[id])
               && (id in t'.conflicts <==> id in t.conflicts)
                   && (id in t.conflicts ==> t'.conflicts[id] == t.conflicts[id])
    requires RowsFit(t', t'.commands[i])
    ensures TablesAgree(t')
  {
    forall j | 0 <= j < |t'.commands| ensures RowsFit(t', t'.commands[j]) {
      if j != i {
        assert RowsFit(t, t.commands[j]);
        assert t.commands[j].operationId != t.commands[i].operationId;
      }
    }
    forall id | HasCommand(t.commands, id) ensures HasCommand(t'.commands, id) {
      var j :| 0 <= j < |t.commands| && t.commands[j].operationId == id;
      assert t'.commands[j].operationId == id;
    }
    assert HasCommand(t.commands, t.commands[i].operationId);
  }

  /** The command has a conflict row. */
  predicate Contested(c: Command) {
    c.state.Conflict? || c.state.DeadLetter?
  }

  /** Marking any command, answered ones included: SYNCED keeps agreement exactly when it has no conflict row, RETRY
      when besides it is not a synced cash payment, CONFLICT when it is neither that nor resolved. */
  lemma MarkKeepsAgreementExactly(t: Tables, i: nat, code: string)
    requires UniqueIds(t.commands) && TablesAgree(t) && i < |t.commands|
    ensures var c := t.commands[i];
            var settledCash := IsCash(c) && c.state.Synced?;
            (TablesAgree(MarkSynced(t, c.operationId)) <==> !Contested(c))
            && (TablesAgree(MarkRetry(t, c.operationId)) <==> !Contested(c) && !settledCash)
            && (TablesAgree(MarkConflict(t, c.operationId, c.operation, code)) <==>
                !c.state.DeadLetter? && !settledCash)
  {
    SyncedAgreesExactly(t, i);
    RetryAgreesExactly(t, i);
    ConflictAgreesExactly(t, i, code);
  }

  lemma SyncedAgreesExactly(t: Tables, i: nat)
    requires UniqueIds(t.commands) && TablesAgree(t) && i < |t.commands|
    ensures TablesAgree(MarkSynced(t, t.commands[i].operationId)) <==> !Contested(t.commands[i])
  {
    var t' := MarkSynced(t, t.commands[i].operationId);
    assert RowsFit(t, t.commands[i]);
    SetStateAt(t.commands, i, Synced, 1);
    if Contested(t.commands[i]) {
      assert !RowsFit(t', t'.commands[i]);
    } else {
      ChangedCommandAgrees(t, t', i);
    }
  }

  lemma RetryAgreesExactly(t: Tables, i: nat)
    requires UniqueIds(t.commands) && TablesAgree(t) && i < |t.commands|
    ensures TablesAgree(MarkRetry(t, t.commands[i].operationId))
       <==> !Contested(t.commands[i]) && !(IsCash(t.commands[i]) && t.commands[i].state.Synced?)
  {
    var t' := MarkRetry(t, t.commands[i].operationId);
    assert RowsFit(t, t.commands[i]);
    SetStateAt(t.commands, i, Retry, 1);
    if Contested(t.commands[i]) || (IsCash(t.commands[i]) && t.commands[i].state.Synced?) {
      assert !RowsFit(t', t'.commands[i]);
    } else {
      ChangedCommandAgrees(t, t', i);
    }
  }

  lemma ConflictAgreesExactly(t: Tables, i: nat, code: string)
    requires UniqueIds(t.commands) && TablesAgree(t) && i < |t.commands|
    ensures TablesAgree(MarkConflict(t, t.commands[i].operationId, t.commands[i].operation, code))
       <==> !t.commands[i].state.DeadLetter? && !(IsCash(t.commands[i]) && t.commands[i].state.Synced?)
  {
    var t' := MarkConflict(t, t.commands[i].operationId, t.commands[i].operation, code);
    assert RowsFit(t, t.commands[i]);
    SetStateAt(t.commands, i, Conflict, 1);
    if t.commands[i].state.DeadLetter? || (IsCash(t.commands[i]) && t.commands[i].state.Synced?) {
      assert !RowsFit(t', t'.commands[i]);
    } else {
      ChangedCommandAgrees(t, t', i);
    }
  }

  lemma ResolveShape(t: Tables, operationId: string, resolution: Resolution)
    requires UniqueIds(t.commands) && TablesAgree(t)
    requires ResolveConflict(t, operationId, resolution).1.None?
    ensures var t' := ResolveConflict(t, operationId, resolution).0;
            exists i | 0 <= i < |t.commands| ::
              t.commands[i].operationId == operationId && t.commands[i].state.Conflict? && operationId in t.conflicts
              && !(NeverAutoMerge(t.commands[i].operation) && resolution.AutoMerge?)
              && t'.commands == t.commands[i :=
                  t.commands[i].(state := DeadLetter, attempts := t.commands[i].attempts + 0)]
              && t'.ledger == t.ledger
              && t'.conflicts == t.conflicts[operationId := t.conflicts[operationId].(resolution := Some(resolution))]
  {
    var i := FindCommand(t.commands, operationId).value;
    assert RowsFit(t, t.commands[i]);
    SetStateAt(t.commands, i, DeadLetter, 0);
  }

  lemma SettledKeepsLog(commands: seq<Command>, i: nat, state: CommandState, tries: nat)
    requires LogInv(commands) && i < |commands| && Done(commands[i]) && !state.Pending? && !state.Retry?
    ensures LogInv(SetState(commands, commands[i].operationId, state, tries))
  {
    SetStateNumbered(commands, commands[i].operationId, state, tries);
    SetStateAt(commands, i, state, tries);
  }

  lemma ResolveKeepsAgreement(t: Tables, operationId: string, resolution: Resolution)
    requires UniqueIds(t.commands) && TablesAgree(t)
    ensures TablesAgree(ResolveConflict(t, operationId, resolution).0)
  {
    var (t', fault) := ResolveConflict(t, operationId, resolution);
    if fault.None? {
      ResolveShape(t, operationId, resolution);
      var i :| 0 <= i < |t.commands|
        && t.commands[i].operationId == operationId && t.commands[i].state.Conflict? && operationId in t.conflicts
        && !(NeverAutoMerge(t.commands[i].operation) && resolution.AutoMerge?)
        && t'.commands == t.commands[i := t.commands[i].(state := DeadLetter, attempts := t.commands[i].attempts + 0)]
        && t'.ledger == t.ledger
        && t'.conflicts == t.conflicts[operationId := t.conflicts[operationId].(resolution := Some(resolution))];
      assert RowsFit(t, t.commands[i]);
      ChangedCommandAgrees(t, t', i);
    }
  }

  // ---------- diagnostics ----------

  predicate IsOpen(c: Command) {
    !Done(c)
  }

  predicate IsSynced(c: Command) {
    c.state.Synced?
  }

  predicate InConflict(c: Command) {
    c.state.Conflict?
  }

  predicate IsDead(c: Command) {
    c.state.DeadLetter?
  }

  predicate IsOpenCash(c: Command) {
    IsCash(c) && !IsSynced(c)
  }

  function CountWhere(commands: seq<Command>, p: Command -> bool): nat {
    if commands == [] then 0
    else CountWhere(commands[..|commands| - 1], p) + if p(commands[|commands| - 1]) then 1 else 0
  }

  datatype Diagnostics = Diagnostics(
    total: nat, pending: nat, synced: nat, conflicts: nat, deadLetter: nat,
    ledgerTotal: nat, ledgerPending: nat, unresolvedConflicts: nat)

  function Diagnose(t: Tables): Diagnostics {
    Diagnostics(
      |t.commands|, CountWhere(t.commands, IsOpen), CountWhere(t.commands, IsSynced),
      CountWhere(t.commands, InConflict), CountWhere(t.commands, IsDead),
      |t.ledger|, |set id | id in t.ledger && !t.ledger[id].synced|,
      |set id | id in t.conflicts && t.conflicts[id].resolution.None?|)
  }

  lemma {:induction false} StatesPartition(commands: seq<Command>)
    ensures CountWhere(commands, IsOpen) + CountWhere(commands, IsSynced) + CountWhere(commands, InConflict)
            + CountWhere(commands, IsDead) == |commands|
  {
    if commands != [] {
      StatesPartition(commands[..|commands| - 1]);
    }
  }

  ghost function RowsIn(commands: seq<Command>, states: set<CommandState>): set<nat> {
    set i: nat | i < |commands| && commands[i].state in states
  }

  lemma RowsInNext(front: seq<Command>, last: Command, states: set<CommandState>)
    ensures RowsIn(front + [last], states) == RowsIn(front, states) + if last.state in states then {|front|} else {}
  {
  }

  lemma {:induction false} CountIsRows(commands: seq<Command>, p: Command -> bool, states: set<CommandState>)
    requires forall c :: p(c) <==> c.state in states
    ensures CountWhere(commands, p) == |RowsIn(commands, states)|
  {
    if commands == [] {
      assert RowsIn(commands, states) == {};
    } else {
      var front, last := commands[..|commands| - 1], commands[|commands| - 1];
      CountIsRows(front, p, states);
      assert commands == front + [last];
      RowsInNext(front, last, states);
    }
  }

  /** The counts by state. */
  lemma DiagnosticsExactly(t: Tables)
    ensures var d := Diagnose(t);
            d.total == |t.commands| && d.pending == |RowsIn(t.commands, {Pending, Retry})|
            && d.synced == |RowsIn(t.commands, {Synced})| && d.conflicts == |RowsIn(t.commands, {Conflict})|
            && d.deadLetter == |RowsIn(t.commands, {DeadLetter})|
  {
    CountIsRows(t.commands, IsOpen, {Pending, Retry});
    CountIsRows(t.commands, IsSynced, {Synced});
    CountIsRows(t.commands, InConflict, {Conflict});
    CountIsRows(t.commands, IsDead, {DeadLetter});
  }

  ghost function IdsWhere(commands: seq<Command>, p: Command -> bool): set<string> {
    set i | 0 <= i < |commands| && p(commands[i]) :: commands[i].operationId
  }

  lemma IdsWhereNext(front: seq<Command>, last: Command, p: Command -> bool)
    ensures IdsWhere(front + [last], p) == IdsWhere(front, p) + if p(last) then {last.operationId} else {}
  {
    var commands := front + [last];
    assert commands[|front|] == last;
    forall id
      ensures id in IdsWhere(commands, p) <==> id in IdsWhere(front, p) || (p(last) && id == last.operationId)
    {
      if id in IdsWhere(front, p) {
        var i :| 0 <= i < |front| && p(front[i]) && front[i].operationId == id;
        assert commands[i] == front[i];
      }
      if id in IdsWhere(commands, p) {
        var i :| 0 <= i < |commands| && p(commands[i]) && commands[i].operationId == id;
        assert i < |front| ==> commands[i] == front[i];
      }
    }
  }

  lemma {:induction false} UniqueIdsCount(commands: seq<Command>, p: Command -> bool)
    requires UniqueIds(commands)
    ensures |IdsWhere(commands, p)| == CountWhere(commands, p)
  {
    if commands == [] {
      assert IdsWhere(commands, p) == {};
    } else {
      var front, last := commands[..|commands| - 1], commands[|commands| - 1];
      UniqueIdsCount(front, p);
      assert commands == front + [last];
      IdsWhereNext(front, last, p);
      assert last.operationId !in IdsWhere(front, p);
    }
  }

  lemma CommandOf(t: Tables, id: string) returns (i: nat)
    requires TablesAgree(t) && HasCommand(t.commands, id)
    ensures i < |t.commands| && t.commands[i].operationId == id && RowsFit(t, t.commands[i])
  {
    i :| 0 <= i < |t.commands| && t.commands[i].operationId == id;
  }

  /** The ledger is in bijection with the cash commands, its open rows with the unsynced ones, and the unresolved
      conflicts with the commands in conflict. */
  lemma RowsAreCommands(t: Tables)
    requires UniqueIds(t.commands) && TablesAgree(t)
    ensures t.ledger.Keys == IdsWhere(t.commands, IsCash)
    ensures (set id | id in t.ledger && !t.ledger[id].synced) == IdsWhere(t.commands, IsOpenCash)
    ensures (set id | id in t.conflicts && t.conflicts[id].resolution.None?) == IdsWhere(t.commands, InConflict)
  {
    forall i | 0 <= i < |t.commands| ensures RowsFit(t, t.commands[i]) {
    }
    forall id | id in t.ledger
      ensures id in IdsWhere(t.commands, IsCash) && (!t.ledger[id].synced ==> id in IdsWhere(t.commands, IsOpenCash))
    {
      var i := CommandOf(t, id);
    }
    forall id | id in t.conflicts && t.conflicts[id].resolution.None? ensures id in IdsWhere(t.commands, InConflict) {
      var i := CommandOf(t, id);
    }
  }

  /** The counts partition the log, and the ledger and conflict counts are counts of commands. */
  lemma DiagnosticsPartition(t: Tables)
    requires UniqueIds(t.commands) && TablesAgree(t)
    ensures var d := Diagnose(t);
            d.total == d.pending + d.synced + d.conflicts + d.deadLetter
            && d.unresolvedConflicts == d.conflicts
            && d.ledgerTotal == CountWhere(t.commands, IsCash) && d.ledgerPending == CountWhere(t.commands, IsOpenCash)
  {
    StatesPartition(t.commands);
    RowsAreCommands(t);
    UniqueIdsCount(t.commands, InConflict);
    UniqueIdsCount(t.commands, IsCash);
    UniqueIdsCount(t.commands, IsOpenCash);
  }
}
