/** continuity.js and cloud-client.js: the engine object whose methods change the tables row by row. */
module ContinuityEngine {
  import opened Collections
  import opened Options
  import opened Text
  import opened ContinuityData
  import opened Projection
  import opened Continuity
  import opened CommandReplay
  import opened TornMarks

  class ContinuityEngine {
    var shopId: Option<string>
    var cache: Cache
    var commands: seq<Command>
    var ledger: map<string, LedgerRow>
    var conflicts: map<string, ConflictRow>

    constructor ()
      ensures View() == Tables(None, map[], [], map[], map[])
    {
      shopId := None;
      cache := map[];
      commands := [];
      ledger := map[];
      conflicts := map[];
    }

    function View(): Tables
      reads this
    {
      Tables(shopId, cache, commands, ledger, conflicts)
    }

    /** applyLocalProjection: writes the cache or the ledger, or reports the fault it throws. */
    method ApplyLocalProjection(input: CommandInput, e: Envelope) returns (fault: Option<Fault>)
      requires e.Envelope? && Certified(input.operation)
      modifies this`cache, this`ledger
      ensures fault.None? ==> ProjectInput(old(View()), input, e) == Projected(cache, ledger)
      ensures fault.Some? ==> ProjectInput(old(View()), input, e) == Failed(fault.value)
    {
      match input.operation {
        case SessionStart =>
          var r := StartSession(cache, e.aggregateId, input.payload, input.occurredAt);
          fault := r.1;
          if fault.None? {
            cache := r.0;
          }
        case SessionPause | SessionResume | SessionEnd =>
          var r := MoveSession(cache, input.operation, e.aggregateId, input.aggregateVersion, input.occurredAt);
          fault := r.1;
          if fault.None? {
            cache := r.0;
          }
        case CashPayment =>
          var r := CashLine(cache, e.venueId, input.payload, input.occurredAt);
          fault := r.1;
          if fault.None? {
            if input.operationId in ledger {
              fault := Some(UniqueViolation);
            } else {
              ledger := ledger[input.operationId := r.0];
            }
          }
        case OrderCreate =>
          cache := cache[(Order, e.aggregateId) := CacheRow(Some(1), Opened(e.aggregateId) + input.payload)];
          fault := None;
        case CheckCreate =>
          var check := Opened(e.aggregateId) + map[Version := Num(1)] + input.payload;
          cache := cache[(Check, e.aggregateId) := CacheRow(Some(1), check)];
          fault := None;
        case CheckUpdate =>
          var r := UpdateCheck(cache, e.aggregateId, input.aggregateVersion, input.payload);
          fault := r.1;
          if fault.None? {
            cache := r.0;
          }
      }
    }

    /** createCommand: the projection is written before the command row, and undone when the insert fails. */
    method CreateCommand(input: CommandInput) returns (outcome: Outcome)
      modifies this
      ensures (View(), outcome) == Continuity.CreateCommand(old(View()), input)
    {
      outcome := CreateChecked(input, CheckEnvelope(shopId, input));
    }

    method CreateChecked(input: CommandInput, e: Envelope) returns (outcome: Outcome)
      requires e.Envelope? ==> Certified(input.operation)
      modifies this
      ensures (View(), outcome) == Continuity.CreateChecked(old(View()), input, e)
    {
      if e.Bad? {
        return Rejected(e.fault);
      }
      var savedCache, savedLedger := cache, ledger;
      var existing := FindCommand(commands, input.operationId);
      if existing.Some? {
        var c := commands[existing.value];
        return if SameRequest(c, input, e) then Duplicate(c) else Rejected(IdempotencyConflict);
      }
      var sequence := NextSequence(commands, e.deviceId);
      var denied := PermissionFault(cache, input.operation, input.payload);
      if denied.Some? {
        return Rejected(denied.value);
      }
      var fault := ApplyLocalProjection(input, e);
      if fault.None? && KeyTaken(commands, e.venueId, e.key) {
        fault := Some(UniqueViolation);
      }
      if fault.Some? {
        cache, ledger := savedCache, savedLedger;
        return Rejected(fault.value);
      }
      var row := NewCommand(input, e, sequence);
      commands := commands + [row];
      outcome := Created(row);
    }

    method MarkSynced(operationId: string)
      modifies this
      ensures View() == Continuity.MarkSynced(old(View()), operationId)
    {
      commands := SetState(commands, operationId, Synced, 1);
      if operationId in ledger {
        ledger := ledger[operationId := ledger[operationId].(synced := true)];
      }
    }

    method MarkRetry(operationId: string)
      modifies this
      ensures View() == Continuity.MarkRetry(old(View()), operationId)
    {
      commands := SetState(commands, operationId, Retry, 1);
    }

    method MarkConflict(operationId: string, op: Operation, code: string) returns (conflictClass: string)
      modifies this
      ensures View() == Continuity.MarkConflict(old(View()), operationId, op, code)
      ensures conflictClass == "FINANCIAL_MANUAL_REVIEW" <==> NeverAutoMerge(op)
    {
      conflictClass := ConflictClass(op, code);
      commands := SetState(commands, operationId, Conflict, 1);
      var resolution := if operationId in conflicts then conflicts[operationId].resolution else None;
      conflicts := conflicts[operationId := ConflictRow(conflictClass, code, resolution)];
      ClassNames();
    }

    method ResolveConflict(operationId: string, resolution: Resolution) returns (fault: Option<Fault>)
      modifies this
      ensures (View(), fault) == Continuity.ResolveConflict(old(View()), operationId, resolution)
    {
      var at := FindCommand(commands, operationId);
      if at.None? || !commands[at.value].state.Conflict? {
        return Some(ConflictNotFound);
      }
      if NeverAutoMerge(commands[at.value].operation) && resolution.AutoMerge? {
        return Some(FinancialManualReview);
      }
      if operationId in conflicts {
        conflicts := conflicts[operationId := conflicts[operationId].(resolution := Some(resolution))];
      }
      commands := SetState(commands, operationId, DeadLetter, 0);
      fault := None;
    }

    /** applySnapshot: replaces kind after kind, row after row, and puts the cache back when a row cannot be
        inserted. */
    method ApplySnapshot(s: Snapshot) returns (fault: Option<Fault>)
      modifies this
      ensures (View(), fault) == Continuity.ApplySnapshot(old(View()), s)
    {
      if s.venueId == "" {
        return Some(MissingField);
      }
      if shopId.Some? && shopId.value != "" && shopId.value != s.venueId {
        return Some(TenantConflict);
      }
      shopId := Some(s.venueId);
      var saved := cache;
      fault := LoadAll(s, SNAPSHOT_KINDS);
      if fault.Some? {
        cache := saved;
      }
    }

    method LoadAll(s: Snapshot, kinds: seq<Kind>) returns (fault: Option<Fault>)
      modifies this`cache
      ensures LoadKinds(old(cache), s, kinds) == if fault.None? then Loaded(cache) else Broken(fault.value)
    {
      var n := 0;
      while n < |kinds|
        invariant 0 <= n <= |kinds|
        invariant LoadKinds(old(cache), s, kinds[..n]) == Loaded(cache)
      {
        var kind, next := kinds[n], n + 1;
        LoadStep(old(cache), s, kinds, n, next);
        cache := ClearKind(cache, kind);
        fault := LoadRows(kind, RowsOf(s, kind));
        if fault.Some? {
          LoadFails(old(cache), s, kinds, next);
          return;
        }
        n := next;
      }
      assert kinds[..n] == kinds;
      fault := None;
    }

    method LoadRows(kind: Kind, rows: seq<Payload>) returns (fault: Option<Fault>)
      modifies this`cache
      ensures InsertRows(old(cache), kind, rows) == if fault.None? then Loaded(cache) else Broken(fault.value)
    {
      var i := 0;
      while i < |rows|
        invariant 0 <= i <= |rows|
        invariant InsertRows(old(cache), kind, rows[..i]) == Loaded(cache)
      {
        var id, next := Required(rows[i], Id), i + 1;
        InsertStep(old(cache), kind, rows, i, next, cache);
        if id == "" {
          return Some(MissingField);
        }
        if (kind, id) in cache {
          return Some(UniqueViolation);
        }
        cache := cache[(kind, id) := SnapshotRow(rows[i])];
        i := next;
      }
      assert rows[..i] == rows;
      fault := None;
    }

    method RecordReply(c: Command, reply: Reply)
      modifies this
      ensures View() == AnswerCommand(old(View()), c, reply)
    {
      match reply {
        case Ok => MarkSynced(c.operationId);
        case Refused(code) => var _ := MarkConflict(c.operationId, c.operation, code);
        case Unavailable => MarkRetry(c.operationId);
      }
    }

    /** The loop over the loaded rows. */
    method DrainBatch(batch: seq<nat>, cloud: nat -> Reply) returns (synced: nat, conflicted: nat)
      requires forall i | 0 <= i < |batch| :: batch[i] < |commands|
      modifies this
      ensures View() == Drain(old(View()), old(commands), batch, 0, cloud)
      ensures Stopped(batch, cloud, synced, conflicted)
    {
      synced, conflicted := 0, 0;
      var rows, k := commands, 0;
      while k < |batch|
        invariant 0 <= k <= |batch| && Counted(cloud, k, synced, conflicted)
        invariant Drain(View(), rows, batch, k, cloud) == Drain(old(View()), rows, batch, 0, cloud)
      {
        var next, reply := k + 1, cloud(k);
        DrainNext(View(), rows, batch, k, next, cloud);
        ghost var answered := AnswerCommand(View(), rows[batch[k]], reply);
        RecordReply(rows[batch[k]], reply);
        assert View() == answered;
        if reply.Unavailable? {
          StopsAt(batch, cloud, k, synced, conflicted);
          return;
        }
        CountNext(cloud, k, next, synced, conflicted);
        if reply.Ok? {
          synced := synced + 1;
        } else {
          conflicted := conflicted + 1;
        }
        k := next;
      }
      StopsAt(batch, cloud, k, synced, conflicted);
    }

    /** syncContinuityPending with nothing else running, on the rows the query returned. An unregistered client has no
        pending count. */
    method SyncContinuityPending(limit: nat, batch: seq<nat>, cloud: nat -> Reply, registered: bool)
      returns (synced: nat, conflicted: nat, pending: Option<nat>)
      requires PendingBatch(commands, limit, batch)
      modifies this
      ensures !registered ==> View() == old(View()) && synced == conflicted == 0 && pending == None
      ensures registered ==> View() == Drain(old(View()), old(commands), batch, 0, cloud)
      ensures registered ==> Stopped(batch, cloud, synced, conflicted)
      ensures registered ==> pending == Some(Min(limit, CountWhere(commands, IsOpen)))
    {
      synced, conflicted, pending := 0, 0, None;
      if !registered {
        return;
      }
      synced, conflicted := DrainBatch(batch, cloud);
      pending := Some(Min(limit, CountWhere(commands, IsOpen)));
    }
  }

  /** How many of the first k answers were OK. */
  function Oks(cloud: nat -> Reply, k: nat): nat {
    if k == 0 then 0 else Oks(cloud, k - 1) + if cloud(k - 1).Ok? then 1 else 0
  }

  lemma {:induction false} OksAreCounted(cloud: nat -> Reply, n: nat)
    ensures Oks(cloud, n) == |set k: nat | k < n && cloud(k).Ok?|
  {
    if n == 0 {
      assert (set k: nat | k < n && cloud(k).Ok?) == {};
    } else {
      OksAreCounted(cloud, n - 1);
      OneMoreOk(cloud, n - 1, n);
    }
  }

  lemma OneMoreOk(cloud: nat -> Reply, n: nat, next: nat)
    requires next == n + 1
    ensures var before, after := set k: nat | k < n && cloud(k).Ok?, set k: nat | k < next && cloud(k).Ok?;
            |after| == |before| + if cloud(n).Ok? then 1 else 0
  {
    var before, after := set k: nat | k < n && cloud(k).Ok?, set k: nat | k < next && cloud(k).Ok?;
    assert after == if cloud(n).Ok? then before + {n} else before;
  }

  /** The counters of a run that answered its rows in order: it stops at the end or at the first missing answer, and the
      answered rows are those it synced and those it put in conflict. */
  ghost predicate Stopped(batch: seq<nat>, cloud: nat -> Reply, synced: nat, conflicted: nat) {
    var answered := synced + conflicted;
    answered <= |batch| && synced == Oks(cloud, answered)
    && (forall k | 0 <= k < answered :: !cloud(k).Unavailable?)
    && (answered < |batch| ==> cloud(answered).Unavailable?)
  }

  /** The counters after k answers. */
  ghost predicate Counted(cloud: nat -> Reply, k: nat, synced: nat, conflicted: nat) {
    k == synced + conflicted && synced == Oks(cloud, k) && forall j: nat | j < k :: !cloud(j).Unavailable?
  }

  lemma CountNext(cloud: nat -> Reply, k: nat, next: nat, synced: nat, conflicted: nat)
    requires Counted(cloud, k, synced, conflicted) && next == k + 1 && !cloud(k).Unavailable?
    ensures if cloud(k).Ok? then Counted(cloud, next, synced + 1, conflicted)
            else Counted(cloud, next, synced, conflicted + 1)
  {
  }

  lemma StopsAt(batch: seq<nat>, cloud: nat -> Reply, k: nat, synced: nat, conflicted: nat)
    requires Counted(cloud, k, synced, conflicted) && k <= |batch| && (k < |batch| ==> cloud(k).Unavailable?)
    ensures Stopped(batch, cloud, synced, conflicted)
  {
  }

  function OpenRows(commands: seq<Command>): set<nat> {
    set i: nat | i < |commands| && !Done(commands[i])
  }

  lemma OpenRowsNext(front: seq<Command>, last: Command)
    ensures OpenRows(front + [last]) == OpenRows(front) + if Done(last) then {} else {|front|}
  {
  }

  lemma {:induction false} OpenRowsCount(commands: seq<Command>)
    ensures |OpenRows(commands)| == CountWhere(commands, IsOpen)
  {
    if commands == [] {
      assert OpenRows(commands) == {};
    } else {
      var front, last := commands[..|commands| - 1], commands[|commands| - 1];
      OpenRowsCount(front);
      OpenRowsNext(front, last);
      assert commands == front + [last];
    }
  }

  function Positions(batch: seq<nat>): set<nat> {
    set i | i in batch
  }

  lemma {:induction false} PositionsCount(batch: seq<nat>)
    requires Distinct(batch)
    ensures |Positions(batch)| == |batch|
  {
    if batch == [] {
      assert Positions(batch) == {};
    } else {
      var front, last := batch[..|batch| - 1], batch[|batch| - 1];
      PositionsCount(front);
      assert Positions(batch) == Positions(front) + {last};
    }
  }

  /** Whatever rows the query returns, it returns as many as the limit allows. */
  lemma BatchLength(commands: seq<Command>, limit: nat, batch: seq<nat>)
    requires PendingBatch(commands, limit, batch)
    ensures |batch| == Min(limit, CountWhere(commands, IsOpen))
  {
    OpenRowsCount(commands);
    PositionsCount(batch);
    forall i | i in batch ensures i in OpenRows(commands) {
      var k :| 0 <= k < |batch| && batch[k] == i;
    }
    SubsetCount(Positions(batch), OpenRows(commands));
    if |batch| < limit {
      forall i | i in OpenRows(commands) ensures i in batch {
      }
      assert Positions(batch) == OpenRows(commands);
    }
  }

  lemma ClassNames()
    ensures forall op, code :: ConflictClass(op, code) == "FINANCIAL_MANUAL_REVIEW" <==> NeverAutoMerge(op)
  {
    assert "FINANCIAL_MANUAL_REVIEW"[0] == 'F';
  }

  lemma InsertStep(cache: Cache, kind: Kind, rows: seq<Payload>, n: nat, next: nat, before: Cache)
    requires n < |rows| && next == n + 1 && InsertRows(cache, kind, rows[..n]) == Loaded(before)
    ensures var after := InsertRow(before, kind, rows[n]);
            InsertRows(cache, kind, rows[..next]) == after && (after.Broken? ==> InsertRows(cache, kind, rows) == after)
  {
    assert rows[..next][..n] == rows[..n];
    if InsertRows(cache, kind, rows[..next]).Broken? {
      InsertFails(cache, kind, rows, next);
    }
  }

  lemma {:induction false} LoadFails(cache: Cache, s: Snapshot, kinds: seq<Kind>, n: nat)
    requires n <= |kinds| && LoadKinds(cache, s, kinds[..n]).Broken?
    ensures LoadKinds(cache, s, kinds) == LoadKinds(cache, s, kinds[..n])
    decreases |kinds|
  {
    if n < |kinds| {
      assert kinds[..|kinds| - 1][..n] == kinds[..n];
      LoadFails(cache, s, kinds[..|kinds| - 1], n);
    } else {
      assert kinds[..n] == kinds;
    }
  }

  lemma {:induction false} InsertFails(cache: Cache, kind: Kind, rows: seq<Payload>, n: nat)
    requires n <= |rows| && InsertRows(cache, kind, rows[..n]).Broken?
    ensures InsertRows(cache, kind, rows) == InsertRows(cache, kind, rows[..n])
    decreases |rows|
  {
    if n < |rows| {
      assert rows[..|rows| - 1][..n] == rows[..n];
      InsertFails(cache, kind, rows[..|rows| - 1], n);
    } else {
      assert rows[..n] == rows;
    }
  }

  /** The answers of one run, in order, up to the first missing one; rows are the command rows it loaded. */
  function Drain(t: Tables, rows: seq<Command>, batch: seq<nat>, k: nat, cloud: nat -> Reply): Tables
    requires forall i | 0 <= i < |batch| :: batch[i] < |rows|
    decreases |batch| - k
  {
    if k >= |batch| then t
    else
      var next := AnswerCommand(t, rows[batch[k]], cloud(k));
      if cloud(k).Unavailable? then next else Drain(next, rows, batch, k + 1, cloud)
  }

  lemma DrainNext(t: Tables, rows: seq<Command>, batch: seq<nat>, k: nat, next: nat, cloud: nat -> Reply)
    requires forall i | 0 <= i < |batch| :: batch[i] < |rows|
    requires k < |batch| && next == k + 1
    ensures var answered := AnswerCommand(t, rows[batch[k]], cloud(k));
            Drain(t, rows, batch, k, cloud)
              == if cloud(k).Unavailable? then answered else Drain(answered, rows, batch, next, cloud)
  {
  }

  /** The rows loaded at the start still identify the commands that are open. */
  ghost predicate SameRows(rows: seq<Command>, commands: seq<Command>) {
    |rows| == |commands|
    && forall i | 0 <= i < |rows| ::
          rows[i].operationId == commands[i].operationId && rows[i].operation == commands[i].operation
  }

  /** The log is in order, and torn is what cut marks have left behind. */
  ghost predicate Healthy(t: Tables, torn: Torn) {
    match t case Tables(_, _, commands, _, _) => LogInv(commands) && TablesFit(t, torn)
  }

  /** The run can answer the k-th row of its batch. */
  ghost predicate Ready(t: Tables, torn: Torn, batch: seq<nat>, k: nat) {
    WorldInv(World(t, Some(Sync(batch, k)), None, torn))
  }

  /** A whole run keeps the device order and tears nothing. */
  lemma {:induction false} DrainKeeps(
    t: Tables, torn: Torn, rows: seq<Command>, batch: seq<nat>, k: nat, cloud: nat -> Reply)
    requires forall i | 0 <= i < |batch| :: batch[i] < |rows|
    requires k < |batch| && Ready(t, torn, batch, k) && SameRows(rows, t.commands)
    ensures Healthy(Drain(t, rows, batch, k, cloud), torn)
    decreases |batch| - k
  {
    var answered := AnswerCommand(t, rows[batch[k]], cloud(k));
    DrainStep(t, torn, rows, batch, k, cloud(k), answered);
    DrainUnfolds(t, rows, batch, k, cloud);
    if !cloud(k).Unavailable? && k + 1 < |batch| {
      DrainKeeps(answered, torn, rows, batch, k + 1, cloud);
    }
  }

  lemma DrainUnfolds(t: Tables, rows: seq<Command>, batch: seq<nat>, k: nat, cloud: nat -> Reply)
    requires (forall i | 0 <= i < |batch| :: batch[i] < |rows|) && k < |batch|
    ensures var next := AnswerCommand(t, rows[batch[k]], cloud(k));
            Drain(t, rows, batch, k, cloud)
              == if cloud(k).Unavailable? || k + 1 == |batch| then next else Drain(next, rows, batch, k + 1, cloud)
  {
  }

  /** An answer and the rest of its mark, as steps of a world. */
  lemma AnswerWorld(t: Tables, torn: Torn, batch: seq<nat>, k: nat, reply: Reply)
    requires k < |batch| && WorldInv(World(t, Some(Sync(batch, k)), None, torn))
    ensures batch[k] < |t.commands|
    ensures var next := AnswerCommand(t, t.commands[batch[k]], reply);
            WorldInv(World(next, if reply.Unavailable? then None else Following(Sync(batch, k)), None, torn))
  {
    var w := World(t, Some(Sync(batch, k)), None, torn);
    var answered := CommandReplay.Next(w, CommandReplay.Answer(reply));
    NextKeeps(w, CommandReplay.Answer(reply));
    if !reply.Unavailable? {
      MarkCompletes(w, reply);
      NextKeeps(answered, Finish);
      assert CommandReplay.Next(answered, Finish).sync == Following(Sync(batch, k));
    }
  }

  lemma SameAnswer(t: Tables, rows: seq<Command>, i: nat, reply: Reply)
    requires SameRows(rows, t.commands) && i < |rows|
    ensures AnswerCommand(t, rows[i], reply) == AnswerCommand(t, t.commands[i], reply)
  {
  }

  lemma AnswerKeepsRows(t: Tables, rows: seq<Command>, i: nat, reply: Reply)
    requires UniqueIds(t.commands) && SameRows(rows, t.commands) && i < |t.commands|
    ensures SameRows(rows, AnswerCommand(t, t.commands[i], reply).commands)
  {
    AnswerIsSetState(t, i, reply);
    SameRowsStay(rows, t.commands, AnswerCommand(t, t.commands[i], reply).commands, i);
  }

  lemma AfterAnswer(t: Tables, torn: Torn, batch: seq<nat>, k: nat, reply: Reply)
    requires WorldInv(World(t, if reply.Unavailable? then None else Following(Sync(batch, k)), None, torn))
    ensures Healthy(t, torn) && (!reply.Unavailable? && k + 1 < |batch| ==> Ready(t, torn, batch, k + 1))
  {
  }

  lemma ReadyRow(t: Tables, torn: Torn, batch: seq<nat>, k: nat)
    requires Ready(t, torn, batch, k)
    ensures k < |batch| && batch[k] < |t.commands| && UniqueIds(t.commands)
  {
  }

  lemma DrainStep(
    t: Tables, torn: Torn, rows: seq<Command>, batch: seq<nat>, k: nat, reply: Reply, answered: Tables)
    requires Ready(t, torn, batch, k) && SameRows(rows, t.commands)
    requires k < |batch| && batch[k] < |rows| && answered == AnswerCommand(t, rows[batch[k]], reply)
    ensures Healthy(answered, torn) && SameRows(rows, answered.commands)
    ensures !reply.Unavailable? && k + 1 < |batch| ==> Ready(answered, torn, batch, k + 1)
  {
    ReadyRow(t, torn, batch, k);
    SameAnswer(t, rows, batch[k], reply);
    AnswerWorld(t, torn, batch, k, reply);
    AnswerKeepsRows(t, rows, batch[k], reply);
    AfterAnswer(answered, torn, batch, k, reply);
  }

  lemma SameRowsStay(rows: seq<Command>, commands: seq<Command>, after: seq<Command>, i: nat)
    requires SameRows(rows, commands) && i < |commands| && |after| == |commands|
    requires after == commands[i := after[i]]
    requires after[i].operationId == commands[i].operationId && after[i].operation == commands[i].operation
    ensures SameRows(rows, after)
  {
  }

  /** So a run that starts with the pending rows leaves a log whose answered commands form a prefix per device, and
      tables that agree exactly when they did before. */
  lemma SyncKeepsOrder(t: Tables, torn: Torn, limit: nat, batch: seq<nat>, cloud: nat -> Reply)
    requires LogInv(t.commands) && TablesFit(t, torn) && PendingBatch(t.commands, limit, batch)
    ensures var after := Drain(t, t.commands, batch, 0, cloud);
            LogInv(after.commands) && TablesFit(after, torn) && (TablesAgree(after) <==> TablesAgree(t))
  {
    if batch != [] {
      StartKeeps(t.commands, limit, batch);
      DrainKeeps(t, torn, t.commands, batch, 0, cloud);
    }
    AgreeExactlyWhenIntact(t, torn);
    AgreeExactlyWhenIntact(Drain(t, t.commands, batch, 0, cloud), torn);
  }
}
