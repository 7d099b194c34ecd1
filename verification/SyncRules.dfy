/** cloud-client.js, syncContinuityPending: what a run leaves of every command, ledger row and conflict. */
module SyncRules {
  import opened Collections
  import opened Options
  import opened ContinuityData
  import opened Continuity
  import opened CommandReplay
  import opened ContinuityEngine
  import opened ConflictRules

  function StateAfter(reply: Reply): CommandState {
    match reply
    case Ok => Synced
    case Refused(_) => Conflict
    case Unavailable => Retry
  }

  predicate InRange(rows: seq<Command>, batch: seq<nat>) {
    forall k | 0 <= k < |batch| :: batch[k] < |rows|
  }

  /** The command of row k of the batch. */
  function RowOf(rows: seq<Command>, batch: seq<nat>, k: nat): Command
    requires InRange(rows, batch) && k < |batch|
  {
    rows[batch[k]]
  }

  ghost predicate AskedFor(rows: seq<Command>, batch: seq<nat>, n: nat, id: string)
    requires InRange(rows, batch) && n <= |batch|
  {
    exists k | 0 <= k < n :: RowOf(rows, batch, k).operationId == id
  }

  /** The commands asked for have their answers and one attempt more; the others are as they were. */
  ghost predicate CommandsAnswered(
    before: seq<Command>, after: seq<Command>, batch: seq<nat>, n: nat, cloud: nat -> Reply)
    requires InRange(before, batch) && n <= |batch|
  {
    |after| == |before|
    && (forall k | 0 <= k < n ::
          var c := RowOf(before, batch, k);
          after[batch[k]] == c.(state := StateAfter(cloud(k)), attempts := c.attempts + 1))
    && forall i | 0 <= i < |before| && !AskedFor(before, batch, n, before[i].operationId) :: after[i] == before[i]
  }

  /** The ledger rows of the payments that were answered OK are synced; no other one changes. */
  ghost predicate LedgerAnswered(
    rows: seq<Command>, before: map<string, LedgerRow>, after: map<string, LedgerRow>, batch: seq<nat>, n: nat,
    cloud: nat -> Reply)
    requires InRange(rows, batch) && n <= |batch|
  {
    (forall id :: id in after <==> id in before)
    && (forall k | 0 <= k < n && RowOf(rows, batch, k).operationId in before ::
          var id := RowOf(rows, batch, k).operationId;
          after[id] == if cloud(k).Ok? then before[id].(synced := true) else before[id])
    && forall id | id in before && !AskedFor(rows, batch, n, id) :: after[id] == before[id]
  }

  predicate SameEntry<V(==)>(before: map<string, V>, after: map<string, V>, id: string) {
    (id in after <==> id in before) && (id in before ==> after[id] == before[id])
  }

  /** The commands that were refused have a conflict with class and code; no other conflict changes. */
  ghost predicate ConflictsAnswered(
    rows: seq<Command>, before: map<string, ConflictRow>, after: map<string, ConflictRow>, batch: seq<nat>, n: nat,
    cloud: nat -> Reply)
    requires InRange(rows, batch) && n <= |batch|
  {
    (forall k | 0 <= k < n ::
       var c := RowOf(rows, batch, k);
       if cloud(k).Refused? then
         c.operationId in after && after[c.operationId] == RefusedRow(before, c, cloud(k).code)
       else SameEntry(before, after, c.operationId))
    && forall id | !AskedFor(rows, batch, n, id) :: SameEntry(before, after, id)
  }

  function RefusedRow(conflicts: map<string, ConflictRow>, c: Command, code: string): ConflictRow {
    ConflictRow(ClassOf(c.operation, code), code,
                if c.operationId in conflicts then conflicts[c.operationId].resolution else None)
  }

  ghost predicate Answered(before: Tables, after: Tables, batch: seq<nat>, n: nat, cloud: nat -> Reply)
    requires InRange(before.commands, batch) && n <= |batch|
  {
    after.shopId == before.shopId && after.cache == before.cache
    && CommandsAnswered(before.commands, after.commands, batch, n, cloud)
    && LedgerAnswered(before.commands, before.ledger, after.ledger, batch, n, cloud)
    && ConflictsAnswered(before.commands, before.conflicts, after.conflicts, batch, n, cloud)
  }

  // ---------- One answer ----------

  lemma AskedNext(rows: seq<Command>, batch: seq<nat>, n: nat, next: nat, id: string)
    requires InRange(rows, batch) && n < |batch| && next == n + 1
    ensures AskedFor(rows, batch, next, id) <==> AskedFor(rows, batch, n, id) || id == RowOf(rows, batch, n).operationId
  {
    if id == RowOf(rows, batch, n).operationId {
      assert AskedFor(rows, batch, next, id);
    }
  }

  lemma NotAskedYet(rows: seq<Command>, batch: seq<nat>, n: nat)
    requires InRange(rows, batch) && n < |batch| && UniqueIds(rows) && Distinct(batch)
    ensures !AskedFor(rows, batch, n, RowOf(rows, batch, n).operationId)
  {
  }

  lemma CommandsNext(before: seq<Command>, after: seq<Command>, after': seq<Command>, batch: seq<nat>, n: nat,
      next: nat, cloud: nat -> Reply)
    requires InRange(before, batch) && n < |batch| && next == n + 1 && UniqueIds(before) && Distinct(batch)
    requires CommandsAnswered(before, after, batch, n, cloud)
    requires OnlyCommand(after, after', RowOf(before, batch, n).operationId, StateAfter(cloud(n)), 1)
    ensures CommandsAnswered(before, after', batch, next, cloud)
  {
    NotAskedYet(before, batch, n);
    forall i | 0 <= i < |before| ensures after[i].operationId == before[i].operationId {
      if k :| 0 <= k < n && RowOf(before, batch, k).operationId == before[i].operationId {
        assert batch[k] == i;
      }
    }
    forall k | 0 <= k < next
      ensures var c := RowOf(before, batch, k);
        after'[batch[k]] == c.(state := StateAfter(cloud(k)), attempts := c.attempts + 1)
    {
      assert k < n ==> batch[k] != batch[n];
      assert after[batch[n]] == before[batch[n]];
    }
    forall i | 0 <= i < |before| && !AskedFor(before, batch, next, before[i].operationId)
      ensures after'[i] == before[i]
    {
      AskedNext(before, batch, n, next, before[i].operationId);
    }
  }

  lemma LedgerNext(rows: seq<Command>, before: map<string, LedgerRow>, after: map<string, LedgerRow>,
      after': map<string, LedgerRow>, batch: seq<nat>, n: nat, next: nat, cloud: nat -> Reply, id: string)
    requires InRange(rows, batch) && n < |batch| && next == n + 1 && UniqueIds(rows) && Distinct(batch)
    requires LedgerAnswered(rows, before, after, batch, n, cloud) && id == RowOf(rows, batch, n).operationId
    requires after' == if cloud(n).Ok? && id in after then after[id := after[id].(synced := true)] else after
    ensures LedgerAnswered(rows, before, after', batch, next, cloud)
  {
    NotAskedYet(rows, batch, n);
    forall k | 0 <= k < next && RowOf(rows, batch, k).operationId in before
      ensures var other := RowOf(rows, batch, k).operationId;
        after'[other] == if cloud(k).Ok? then before[other].(synced := true) else before[other]
    {
      assert k < n ==> AskedFor(rows, batch, n, RowOf(rows, batch, k).operationId);
      assert k == n ==> after[id] == before[id];
    }
    forall other | other in before && !AskedFor(rows, batch, next, other) ensures after'[other] == before[other] {
      AskedNext(rows, batch, n, next, other);
    }
  }

  lemma ConflictsNext(rows: seq<Command>, before: map<string, ConflictRow>, after: map<string, ConflictRow>,
      after': map<string, ConflictRow>, batch: seq<nat>, n: nat, next: nat, cloud: nat -> Reply, c: Command)
    requires InRange(rows, batch) && n < |batch| && next == n + 1 && UniqueIds(rows) && Distinct(batch)
    requires ConflictsAnswered(rows, before, after, batch, n, cloud) && c == RowOf(rows, batch, n)
    requires after' == if cloud(n).Refused? then after[c.operationId := RefusedRow(after, c, cloud(n).code)] else after
    ensures ConflictsAnswered(rows, before, after', batch, next, cloud)
  {
    NotAskedYet(rows, batch, n);
    assert SameEntry(before, after, c.operationId);
    forall k | 0 <= k < n ensures RowOf(rows, batch, k).operationId != c.operationId {
      assert AskedFor(rows, batch, n, RowOf(rows, batch, k).operationId);
    }
    forall other | !AskedFor(rows, batch, next, other) ensures SameEntry(before, after', other) {
      AskedNext(rows, batch, n, next, other);
      assert SameEntry(before, after, other);
    }
  }

  /** One answer: the command, its ledger row and its conflict; everything else stays. */
  lemma AnswersExactly(t: Tables, c: Command, reply: Reply)
    ensures var t', id := AnswerCommand(t, c, reply), c.operationId;
            t'.shopId == t.shopId && t'.cache == t.cache
            && OnlyCommand(t.commands, t'.commands, id, StateAfter(reply), 1)
            && t'.ledger
               == (if reply.Ok? && id in t.ledger then t.ledger[id := t.ledger[id].(synced := true)] else t.ledger)
            && t'.conflicts
               == if reply.Refused? then t.conflicts[id := RefusedRow(t.conflicts, c, reply.code)] else t.conflicts
  {
    AnswerRecorded(t, c.operationId);
    if reply.Refused? {
      RefusalRecorded(t, c.operationId, c.operation, reply.code);
    }
  }

  lemma AnsweredNext(before: Tables, after: Tables, batch: seq<nat>, n: nat, next: nat, cloud: nat -> Reply)
    requires InRange(before.commands, batch) && n < |batch| && next == n + 1
    requires UniqueIds(before.commands) && Distinct(batch) && Answered(before, after, batch, n, cloud)
    ensures Answered(before, AnswerCommand(after, RowOf(before.commands, batch, n), cloud(n)), batch, next, cloud)
  {
    var c := RowOf(before.commands, batch, n);
    var after' := AnswerCommand(after, c, cloud(n));
    AnswersExactly(after, c, cloud(n));
    CommandsNext(before.commands, after.commands, after'.commands, batch, n, next, cloud);
    LedgerNext(before.commands, before.ledger, after.ledger, after'.ledger, batch, n, next, cloud, c.operationId);
    ConflictsNext(before.commands, before.conflicts, after.conflicts, after'.conflicts, batch, n, next, cloud, c);
  }

  // ---------- A whole run ----------

  /** How far a run gets: to the first missing answer, which it has asked for, or to the end. */
  ghost predicate AsksFor(batch: seq<nat>, n: nat, cloud: nat -> Reply) {
    n <= |batch| && (forall k: nat | k + 1 < n :: !cloud(k).Unavailable?)
    && (n < |batch| ==> n > 0 && cloud(n - 1).Unavailable?)
  }

  lemma {:induction false} DrainAnswers(before: Tables, after: Tables, batch: seq<nat>, k: nat, n: nat,
      cloud: nat -> Reply)
    requires InRange(before.commands, batch) && UniqueIds(before.commands) && Distinct(batch)
    requires k < n && AsksFor(batch, n, cloud) && Answered(before, after, batch, k, cloud)
    ensures Answered(before, Drain(after, before.commands, batch, k, cloud), batch, n, cloud)
    decreases n - k
  {
    hide Answered, AnswerCommand, Drain;
    var next := AnswerCommand(after, RowOf(before.commands, batch, k), cloud(k));
    AnsweredNext(before, after, batch, k, k + 1, cloud);
    DrainUnfolds(after, before.commands, batch, k, cloud);
    if k + 1 < n {
      assert !cloud(k).Unavailable?;
      DrainAnswers(before, next, batch, k + 1, n, cloud);
    }
  }

  /** A whole run over the rows that the query returned. */
  lemma SyncExactly(t: Tables, limit: nat, batch: seq<nat>, n: nat, cloud: nat -> Reply)
    requires UniqueIds(t.commands) && PendingBatch(t.commands, limit, batch) && AsksFor(batch, n, cloud)
    ensures InRange(t.commands, batch) && Answered(t, Drain(t, t.commands, batch, 0, cloud), batch, n, cloud)
  {
    if batch != [] {
      DrainAnswers(t, t, batch, 0, n, cloud);
    }
  }
}
