/** cloud-client.js, syncContinuityPending: replaying the command log while commands, snapshots and operators change
    it. */
module CommandReplay {
  import opened Options
  import opened ContinuityData
  import opened Continuity
  import opened SampleHub
  import opened TornMarks
  import EdgeStore

  datatype Reply = Ok | Refused(code: string) | Unavailable

  /** SELECT * FROM local_commands WHERE state IN ('PENDING','RETRY') ORDER BY local_sequence ASC LIMIT ?
      as row positions; rows of equal sequence may come in any order. */
  ghost predicate PendingBatch(commands: seq<Command>, limit: nat, batch: seq<nat>) {
    |batch| <= limit
    && (forall k | 0 <= k < |batch| :: batch[k] < |commands| && !Done(commands[batch[k]]))
    && (forall j, k | 0 <= j < k < |batch| ::
          batch[j] != batch[k] && commands[batch[j]].localSequence <= commands[batch[k]].localSequence)
    && (forall i | 0 <= i < |commands| && !Done(commands[i]) && i !in batch ::
          |batch| == limit && forall k | 0 <= k < |batch| ::
                commands[batch[k]].localSequence <= commands[i].localSequence)
  }

  function AnswerCommand(t: Tables, c: Command, reply: Reply): Tables {
    match reply
    case Ok => MarkSynced(t, c.operationId)
    case Refused(code) => MarkConflict(t, c.operationId, c.operation, code)
    case Unavailable => MarkRetry(t, c.operationId)
  }

  /** The run in progress: the rows it loaded and how many it has had answered. */
  datatype Sync = Sync(batch: seq<nat>, pos: nat)

  /** A mark of the command in this row that has done its first statement; nothing but its second statement, a failure
      of that, or a crash can come next. */
  datatype Mark = Syncing(row: nat) | Conflicting(row: nat, code: string) | Resolving(row: nat)

  /** The tables, the run and the mark in progress, and the marks that are half done. */
  datatype World = World(tables: Tables, sync: Option<Sync>, mark: Option<Mark>, torn: Torn)

  datatype Step =
    | LanCommand(input: CommandInput)
    | Load(snapshot: Snapshot)
    | LoadCut(snapshot: Snapshot)
    | Resolve(operationId: string, resolution: Resolution)
    | StartSync(limit: nat, batch: seq<nat>)
    | Answer(reply: Reply)
    | Finish
    | Throw
    | Crash

  /** The steps that can happen; a run starts only when none is in progress. */
  ghost predicate Enabled(w: World, step: Step) {
    match step
    case StartSync(limit, batch) => w.mark.None? && w.sync.None? && PendingBatch(w.tables.commands, limit, batch)
    case Answer(_) =>
      w.mark.None? && w.sync.Some? && w.sync.value.pos < |w.sync.value.batch|
          && w.sync.value.batch[w.sync.value.pos] < |w.tables.commands|
    case Finish | Throw => w.mark.Some? && w.mark.value.row < |w.tables.commands|
    case Crash => true
    case _ => w.mark.None?
  }

  function Following(s: Sync): Option<Sync> {
    if s.pos + 1 == |s.batch| then None else Some(Sync(s.batch, s.pos + 1))
  }

  /** The first statement of an answer's mark; a retry has no other. */
  function FirstStatement(t: Tables, c: Command, reply: Reply): Tables {
    match reply
    case Ok => SyncCommand(t, c.operationId)
    case Refused(_) => ConflictCommand(t, c.operationId)
    case Unavailable => MarkRetry(t, c.operationId)
  }

  function FirstMark(row: nat, reply: Reply): Option<Mark> {
    match reply
    case Ok => Some(Syncing(row))
    case Refused(code) => Some(Conflicting(row, code))
    case Unavailable => None
  }

  function FirstTear(torn: Torn, c: Command, reply: Reply): Torn {
    match reply
    case Ok => TearSync(torn, c)
    case Refused(_) => torn.(conflicted := torn.conflicted + {c.operationId})
    case Unavailable => torn
  }

  function SecondStatement(t: Tables, c: Command, mark: Mark): Tables {
    match mark
    case Syncing(_) => SyncLedger(t, c.operationId)
    case Conflicting(_, code) => RecordConflict(t, c.operationId, c.operation, code)
    case Resolving(_) => BuryCommand(t, c.operationId)
  }

  function Mend(torn: Torn, id: string, mark: Mark): Torn {
    match mark
    case Syncing(_) => torn.(synced := torn.synced - {id})
    case Conflicting(_, _) => torn.(conflicted := torn.conflicted - {id})
    case Resolving(_) => torn.(resolved := torn.resolved - {id})
  }

  /** The first statement of an accepted resolution. */
  function StartResolve(w: World, operationId: string, resolution: Resolution): World {
    var at := FindCommand(w.tables.commands, operationId);
    if ResolveConflict(w.tables, operationId, resolution).1.Some? || at.None? then w
    else
      World(RecordResolution(w.tables, operationId, resolution), w.sync, Some(Resolving(at.value)),
            if operationId in w.tables.conflicts then w.torn.(resolved := w.torn.resolved + {operationId}) else w.torn)
  }

  /** The second statement throws: after an answer its handler marks the command RETRY and ends the run. */
  function ThrowIn(w: World, mark: Mark): World
    requires mark.row < |w.tables.commands|
  {
    var id := w.tables.commands[mark.row].operationId;
    if mark.Resolving? then w.(mark := None)
    else World(MarkRetry(w.tables, id), None, None, Untear(w.torn, id))
  }

  ghost function Next(w: World, step: Step): World
    requires Enabled(w, step)
  {
    match step
    case LanCommand(input) => w.(tables := CreateCommand(w.tables, input).0)
    case Load(snapshot) => w.(tables := ApplySnapshot(w.tables, snapshot).0)
    case LoadCut(snapshot) => w.(tables := CutSnapshot(w.tables, snapshot), sync := None)
    case Resolve(operationId, resolution) => StartResolve(w, operationId, resolution)
    case StartSync(_, batch) => w.(sync := if batch == [] then None else Some(Sync(batch, 0)))
    case Answer(reply) =>
      var i := w.sync.value.batch[w.sync.value.pos];
      var c := w.tables.commands[i];
      World(FirstStatement(w.tables, c, reply), if reply.Unavailable? then None else Following(w.sync.value),
            FirstMark(i, reply), FirstTear(w.torn, c, reply))
    case Finish =>
      var c := w.tables.commands[w.mark.value.row];
      World(SecondStatement(w.tables, c, w.mark.value), w.sync, None, Mend(w.torn, c.operationId, w.mark.value))
    case Throw => ThrowIn(w, w.mark.value)
    case Crash => w.(sync := None, mark := None)
  }

  /** What is left of the batch: open rows, each with all earlier open rows of its device before it. */
  ghost predicate BatchInv(commands: seq<Command>, batch: seq<nat>, pos: nat) {
    pos < |batch|
    && (forall k | pos <= k < |batch| :: batch[k] < |commands| && !Done(commands[batch[k]]))
    && (forall j, k | pos <= j < k < |batch| :: batch[j] != batch[k])
    && (forall k, i | pos <= k < |batch| && 0 <= i < batch[k] && commands[i].deviceId == commands[batch[k]].deviceId
            && !Done(commands[i]) ::
          i in batch[pos..k])
  }

  /** No later command of the device is answered. */
  ghost predicate Latest(commands: seq<Command>, i: nat)
    requires i < |commands|
  {
    forall j | i < j < |commands| && commands[j].deviceId == commands[i].deviceId :: !Done(commands[j])
  }

  /** What a mark in progress finds. */
  ghost predicate MarkFits(commands: seq<Command>, torn: Torn, mark: Mark) {
    mark.row < |commands|
    && var c := commands[mark.row];
       match mark
       case Syncing(i) => c.state.Synced? && (IsCash(c) ==> c.operationId in torn.synced) && Latest(commands, i)
       case Conflicting(i, _) => c.state.Conflict? && c.operationId in torn.conflicted && Latest(commands, i)
       case Resolving(i) => c.state.Conflict? && c.operationId in torn.conflicted + torn.resolved
  }

  ghost predicate WorldInv(w: World) {
    match w
    case World(t, sync, mark, torn) =>
      LogInv(t.commands) && TablesFit(t, torn)
      && (sync.Some? ==> BatchInv(t.commands, sync.value.batch, sync.value.pos))
      && (mark.Some? ==> MarkFits(t.commands, torn, mark.value))
  }

  lemma StartKeeps(commands: seq<Command>, limit: nat, batch: seq<nat>)
    requires LogInv(commands) && PendingBatch(commands, limit, batch) && batch != []
    ensures BatchInv(commands, batch, 0)
  {
    forall k, i | 0 <= k < |batch| && 0 <= i < batch[k] && commands[i].deviceId == commands[batch[k]].deviceId
            && !Done(commands[i])
      ensures i in batch[0..k]
    {
      SequenceOrder(commands, i, batch[k]);
      assert i in batch;
      var j :| 0 <= j < |batch| && batch[j] == i;
      assert j < k;
      assert batch[0..k][j] == i;
    }
  }

  /** The command being answered is the first open one of its device. */
  lemma AnsweredIsFirst(commands: seq<Command>, batch: seq<nat>, pos: nat)
    requires BatchInv(commands, batch, pos)
    ensures forall j | 0 <= j < batch[pos] && commands[j].deviceId == commands[batch[pos]].deviceId :: Done(commands[j])
  {
    assert batch[pos..pos] == [];
  }

  lemma BatchAdvances(commands: seq<Command>, after: seq<Command>, batch: seq<nat>, pos: nat)
    requires BatchInv(commands, batch, pos) && pos + 1 < |batch|
    requires |after| == |commands| && forall i | 0 <= i < |commands| && i != batch[pos] :: after[i] == commands[i]
    requires Done(after[batch[pos]]) && after[batch[pos]].deviceId == commands[batch[pos]].deviceId
    ensures BatchInv(after, batch, pos + 1)
  {
    forall k, i | pos + 1 <= k < |batch| && 0 <= i < batch[k] && after[i].deviceId == after[batch[k]].deviceId
            && !Done(after[i])
      ensures i in batch[pos + 1..k]
    {
      assert i in batch[pos..k];
      assert batch[pos..k] == [batch[pos]] + batch[pos + 1..k];
    }
  }

  /** New rows go to the end, so the rest of a batch stays what it was. */
  lemma BatchStays(commands: seq<Command>, after: seq<Command>, batch: seq<nat>, pos: nat)
    requires BatchInv(commands, batch, pos)
    requires |after| >= |commands|
    requires forall i | 0 <= i < |commands| ::
               after[i].deviceId == commands[i].deviceId && (Done(after[i]) <==> Done(commands[i]))
    ensures BatchInv(after, batch, pos)
  {
    forall k, i | pos <= k < |batch| && 0 <= i < batch[k] && after[i].deviceId == after[batch[k]].deviceId
            && !Done(after[i])
      ensures i in batch[pos..k]
    {
      assert !Done(commands[i]) && commands[i].deviceId == commands[batch[k]].deviceId;
    }
  }

  function AnsweredState(reply: Reply): CommandState {
    match reply
    case Ok => Synced
    case Refused(_) => Conflict
    case Unavailable => Retry
  }

  lemma AnswerIsSetState(t: Tables, i: nat, reply: Reply)
    requires UniqueIds(t.commands) && i < |t.commands|
    ensures var c := t.commands[i];
            AnswerCommand(t, c, reply).commands
            == t.commands[i := c.(state := AnsweredState(reply), attempts := c.attempts + 1)]
            == SetState(t.commands, c.operationId, AnsweredState(reply), 1)
  {
    SetStateAt(t.commands, i, AnsweredState(reply), 1);
  }

  lemma FollowingKeeps(t: Tables, s: Sync, reply: Reply)
    requires UniqueIds(t.commands) && BatchInv(t.commands, s.batch, s.pos) && !reply.Unavailable?
    requires Following(s).Some?
    ensures BatchInv(AnswerCommand(t, t.commands[s.batch[s.pos]], reply).commands, s.batch, Following(s).value.pos)
  {
    AnswerIsSetState(t, s.batch[s.pos], reply);
    BatchAdvances(t.commands, AnswerCommand(t, t.commands[s.batch[s.pos]], reply).commands, s.batch, s.pos);
  }

  lemma MakeWorldInv(t: Tables, sync: Option<Sync>, mark: Option<Mark>, torn: Torn)
    requires LogInv(t.commands) && TablesFit(t, torn)
    requires sync.Some? ==> BatchInv(t.commands, sync.value.batch, sync.value.pos)
    requires mark.Some? ==> MarkFits(t.commands, torn, mark.value)
    ensures WorldInv(World(t, sync, mark, torn))
  {
  }

  // ---------- Answers, and the two halves of their marks ----------

  lemma FirstStatementFits(t: Tables, i: nat, reply: Reply, torn: Torn)
    requires UniqueIds(t.commands) && TablesFit(t, torn) && i < |t.commands| && !Done(t.commands[i])
    ensures TablesFit(FirstStatement(t, t.commands[i], reply), FirstTear(torn, t.commands[i], reply))
  {
    match reply {
      case Ok => SyncCommandFits(t, i, torn);
      case Refused(_) => ConflictCommandFits(t, i, torn);
      case Unavailable =>
        OpenIsIntact(t, torn, i);
        RetryFits(t, i, torn);
    }
  }

  lemma OpenIsIntact(t: Tables, torn: Torn, i: nat)
    requires TablesFit(t, torn) && i < |t.commands| && !Done(t.commands[i])
    ensures t.commands[i].operationId !in AllTorn(torn) && Untear(torn, t.commands[i].operationId) == torn
  {
    assert Fits(t, torn, t.commands[i]);
  }

  lemma FirstStatementCommands(t: Tables, i: nat, reply: Reply)
    requires UniqueIds(t.commands) && i < |t.commands|
    ensures FirstStatement(t, t.commands[i], reply).commands == AnswerCommand(t, t.commands[i], reply).commands
  {
  }

  lemma FirstMarkFits(commands: seq<Command>, after: seq<Command>, i: nat, reply: Reply, torn: Torn)
    requires LogInv(commands) && i < |commands| && !Done(commands[i]) && FirstMark(i, reply).Some?
    requires after
          == commands[i := commands[i].(state := AnsweredState(reply), attempts := commands[i].attempts + 1)]
    ensures MarkFits(after, FirstTear(torn, commands[i], reply), FirstMark(i, reply).value)
  {
  }

  lemma AnswerLog(commands: seq<Command>, i: nat, reply: Reply)
    requires LogInv(commands) && i < |commands| && !Done(commands[i])
    requires forall j | 0 <= j < i && commands[j].deviceId == commands[i].deviceId :: Done(commands[j])
    ensures LogInv(SetState(commands, commands[i].operationId, AnsweredState(reply), 1))
  {
    if reply.Unavailable? {
      SetStateAt(commands, i, Retry, 1);
      SetStateNumbered(commands, commands[i].operationId, Retry, 1);
    } else {
      AnswerKeepsLog(commands, i, AnsweredState(reply));
    }
  }

  lemma AnsweredLog(t: Tables, s: Sync, reply: Reply)
    requires LogInv(t.commands) && BatchInv(t.commands, s.batch, s.pos)
    ensures LogInv(FirstStatement(t, t.commands[s.batch[s.pos]], reply).commands)
  {
    var i := s.batch[s.pos];
    AnsweredIsFirst(t.commands, s.batch, s.pos);
    FirstStatementCommands(t, i, reply);
    AnswerIsSetState(t, i, reply);
    AnswerLog(t.commands, i, reply);
  }

  lemma AnsweredMarkFits(t: Tables, i: nat, reply: Reply, torn: Torn)
    requires LogInv(t.commands) && i < |t.commands| && !Done(t.commands[i]) && FirstMark(i, reply).Some?
    ensures MarkFits(FirstStatement(t, t.commands[i], reply).commands, FirstTear(torn, t.commands[i], reply),
                     FirstMark(i, reply).value)
  {
    FirstStatementCommands(t, i, reply);
    AnswerIsSetState(t, i, reply);
    FirstMarkFits(t.commands, FirstStatement(t, t.commands[i], reply).commands, i, reply, torn);
  }

  lemma AnsweredBatch(t: Tables, s: Sync, reply: Reply)
    requires LogInv(t.commands) && BatchInv(t.commands, s.batch, s.pos) && !reply.Unavailable? && Following(s).Some?
    ensures BatchInv(FirstStatement(t, t.commands[s.batch[s.pos]], reply).commands,
                     Following(s).value.batch, Following(s).value.pos)
  {
    FirstStatementCommands(t, s.batch[s.pos], reply);
    FollowingKeeps(t, s, reply);
  }

  lemma AnswerKeeps(w: World, reply: Reply)
    requires WorldInv(w) && Enabled(w, Answer(reply))
    ensures WorldInv(Next(w, Answer(reply)))
  {
    var t, s := w.tables, w.sync.value;
    var i := s.batch[s.pos];
    var after := FirstStatement(t, t.commands[i], reply);
    AnsweredLog(t, s, reply);
    FirstStatementFits(t, i, reply, w.torn);
    if reply.Unavailable? {
      MakeWorldInv(after, None, None, w.torn);
    } else {
      AnsweredMarkFits(t, i, reply, w.torn);
      if Following(s).Some? {
        AnsweredBatch(t, s, reply);
      }
      MakeWorldInv(after, Following(s), FirstMark(i, reply), FirstTear(w.torn, t.commands[i], reply));
    }
  }

  lemma SecondStatementFits(t: Tables, torn: Torn, mark: Mark)
    requires UniqueIds(t.commands) && TablesFit(t, torn) && MarkFits(t.commands, torn, mark)
    ensures var c := t.commands[mark.row];
            TablesFit(SecondStatement(t, c, mark), Mend(torn, c.operationId, mark))
  {
    match mark {
      case Syncing(i) => SyncLedgerFits(t, i, torn);
      case Conflicting(i, code) => RecordConflictFits(t, i, torn, code);
      case Resolving(i) => BuryFits(t, i, torn);
    }
  }

  lemma SecondStatementLog(t: Tables, torn: Torn, mark: Mark)
    requires LogInv(t.commands) && MarkFits(t.commands, torn, mark)
    ensures var after := SecondStatement(t, t.commands[mark.row], mark).commands;
            LogInv(after) && |after| == |t.commands|
            && forall i | 0 <= i < |after| ::
                 after[i].operationId == t.commands[i].operationId && after[i].deviceId == t.commands[i].deviceId
                 && (Done(after[i]) <==> Done(t.commands[i]))
  {
    if mark.Resolving? {
      SettledKeepsLog(t.commands, mark.row, DeadLetter, 0);
      SetStateAt(t.commands, mark.row, DeadLetter, 0);
    }
  }

  lemma FinishKeeps(w: World)
    requires WorldInv(w) && Enabled(w, Finish)
    ensures WorldInv(Next(w, Finish))
  {
    var t, mark := w.tables, w.mark.value;
    var c := t.commands[mark.row];
    var after := SecondStatement(t, c, mark);
    SecondStatementFits(t, w.torn, mark);
    SecondStatementLog(t, w.torn, mark);
    if w.sync.Some? {
      BatchStays(t.commands, after.commands, w.sync.value.batch, w.sync.value.pos);
    }
    MakeWorldInv(after, w.sync, None, Mend(w.torn, c.operationId, mark));
  }

  lemma ThrowKeeps(w: World)
    requires WorldInv(w) && Enabled(w, Throw)
    ensures WorldInv(Next(w, Throw))
  {
    var t, mark := w.tables, w.mark.value;
    if mark.Resolving? {
      MakeWorldInv(t, w.sync, None, w.torn);
    } else {
      var id := t.commands[mark.row].operationId;
      RetryKeepsOrderExactly(t, mark.row);
      SetStateNumbered(t.commands, id, Retry, 1);
      RetryFits(t, mark.row, w.torn);
      MakeWorldInv(MarkRetry(t, id), None, None, Untear(w.torn, id));
    }
  }

  lemma CreateStepKeeps(w: World, input: CommandInput)
    requires WorldInv(w) && w.mark.None?
    ensures WorldInv(Next(w, LanCommand(input)))
  {
    var t, t' := w.tables, CreateCommand(w.tables, input).0;
    CreateKeepsLog(t, input);
    CreateFits(t, input, w.torn);
    LogGrows(t, input);
    if w.sync.Some? {
      BatchStays(t.commands, t'.commands, w.sync.value.batch, w.sync.value.pos);
    }
    MakeWorldInv(t', w.sync, None, w.torn);
  }

  lemma LogGrows(t: Tables, input: CommandInput)
    ensures t.commands <= CreateCommand(t, input).0.commands
  {
    CreatedRow(t, input, CheckEnvelope(t.shopId, input));
  }

  lemma ResolveStepKeeps(w: World, operationId: string, resolution: Resolution)
    requires WorldInv(w) && w.mark.None?
    ensures WorldInv(Next(w, Resolve(operationId, resolution)))
  {
    var t, at := w.tables, FindCommand(w.tables.commands, operationId);
    if ResolveConflict(t, operationId, resolution).1.None? {
      RecordResolutionFits(t, at.value, w.torn, resolution);
      assert Fits(t, w.torn, t.commands[at.value]);
      var torn := if operationId in t.conflicts then w.torn.(resolved := w.torn.resolved + {operationId}) else w.torn;
      MakeWorldInv(RecordResolution(t, operationId, resolution), w.sync, Some(Resolving(at.value)), torn);
    }
  }

  lemma SnapshotTouchesCacheOnly(t: Tables, s: Snapshot)
    ensures var t' := ApplySnapshot(t, s).0;
            t'.commands == t.commands && t'.ledger == t.ledger && t'.conflicts == t.conflicts
  {
  }

  lemma LoadStepKeeps(w: World, snapshot: Snapshot)
    requires WorldInv(w) && w.mark.None?
    ensures WorldInv(Next(w, Load(snapshot))) && WorldInv(Next(w, LoadCut(snapshot)))
  {
    var t', cut := ApplySnapshot(w.tables, snapshot).0, CutSnapshot(w.tables, snapshot);
    SnapshotTouchesCacheOnly(w.tables, snapshot);
    SameTablesFit(w.tables, t', w.torn);
    SameTablesFit(w.tables, cut, w.torn);
    MakeWorldInv(t', w.sync, None, w.torn);
    MakeWorldInv(cut, None, None, w.torn);
  }

  lemma StartStepKeeps(w: World, limit: nat, batch: seq<nat>)
    requires WorldInv(w) && Enabled(w, StartSync(limit, batch))
    ensures WorldInv(Next(w, StartSync(limit, batch)))
  {
    if batch != [] {
      StartKeeps(w.tables.commands, limit, batch);
    }
    MakeWorldInv(w.tables, if batch == [] then None else Some(Sync(batch, 0)), None, w.torn);
  }

  lemma NextKeeps(w: World, step: Step)
    requires WorldInv(w) && Enabled(w, step)
    ensures WorldInv(Next(w, step))
  {
    match step {
      case LanCommand(input) => CreateStepKeeps(w, input);
      case Load(snapshot) => LoadStepKeeps(w, snapshot);
      case LoadCut(snapshot) => LoadStepKeeps(w, snapshot);
      case Resolve(operationId, resolution) => ResolveStepKeeps(w, operationId, resolution);
      case StartSync(limit, batch) => StartStepKeeps(w, limit, batch);
      case Answer(reply) => AnswerKeeps(w, reply);
      case Finish => FinishKeeps(w);
      case Throw => ThrowKeeps(w);
      case Crash => MakeWorldInv(w.tables, None, None, w.torn);
    }
  }

  const EMPTY := World(EMPTY_TABLES, None, None, INTACT)

  /** worlds records a run of the hub: it starts empty and each world follows from the one before. */
  ghost predicate IsRun(worlds: seq<World>, steps: seq<Step>) {
    |worlds| == |steps| + 1 && worlds[0] == EMPTY
    && forall i | 0 <= i < |steps| :: Enabled(worlds[i], steps[i]) && worlds[i + 1] == Next(worlds[i], steps[i])
  }

  lemma {:induction false} RunKeeps(worlds: seq<World>, steps: seq<Step>, n: nat)
    requires IsRun(worlds, steps) && n < |worlds|
    ensures WorldInv(worlds[n])
  {
    if n > 0 {
      RunKeeps(worlds, steps, n - 1);
      NextKeeps(worlds[n - 1], steps[n - 1]);
    }
  }

  // ---------- Cut marks ----------

  /** The operation whose mark this step cuts for good: a crash after the first statement of a cash payment marked
      SYNCED or of a command marked CONFLICT. */
  ghost function CutNow(w: World, step: Step): set<string> {
    if !(step.Crash? && w.mark.Some? && w.mark.value.row < |w.tables.commands|) then {}
    else
      var c := w.tables.commands[w.mark.value.row];
      match w.mark.value
      case Syncing(_) => if IsCash(c) then {c.operationId} else {}
      case Conflicting(_, _) => {c.operationId}
      case Resolving(_) => {}
  }

  /** The operation being resolved whose conflict is in the table. */
  ghost function ResolvingNow(w: World): set<string> {
    if !(w.mark.Some? && w.mark.value.Resolving? && w.mark.value.row < |w.tables.commands|) then {}
    else
      var id := w.tables.commands[w.mark.value.row].operationId;
      if id in w.tables.conflicts then {id} else {}
  }

  /** The cut marks after a step. */
  ghost function CutBy(w: World, step: Step, cut: set<string>): set<string> {
    cut + CutNow(w, step)
  }

  /** The cut resolutions after a step: finishing one takes it out. */
  ghost function ResolutionsCutBy(w: World, step: Step, resolutions: set<string>): set<string> {
    if step.Finish? then resolutions - ResolvingNow(w)
    else if step.Crash? || step.Throw? then resolutions + ResolvingNow(w)
    else resolutions
  }

  /** The operations whose mark a crash has cut. */
  ghost function CutMarks(worlds: seq<World>, steps: seq<Step>, n: nat): set<string>
    requires n <= |worlds| && n <= |steps|
  {
    if n == 0 then {} else CutBy(worlds[n - 1], steps[n - 1], CutMarks(worlds, steps, n - 1))
  }

  /** The operations whose resolution was cut by a crash or an error and has not been completed since. */
  ghost function CutResolutions(worlds: seq<World>, steps: seq<Step>, n: nat): set<string>
    requires n <= |worlds| && n <= |steps|
  {
    if n == 0 then {} else ResolutionsCutBy(worlds[n - 1], steps[n - 1], CutResolutions(worlds, steps, n - 1))
  }

  /** The operations that the mark in progress has torn. */
  ghost function MarkingNow(w: World): set<string> {
    CutNow(w, Crash)
  }

  /** The tears of a world are those of cut marks and of the mark in progress. */
  ghost predicate Accounted(w: World, cut: set<string>, resolutions: set<string>) {
    w.torn.synced + w.torn.conflicted == cut + MarkingNow(w) && cut !! MarkingNow(w)
    && w.torn.resolved == resolutions + ResolvingNow(w)
  }

  lemma AnswerAccounted(w: World, reply: Reply, cut: set<string>, resolutions: set<string>)
    requires WorldInv(w) && Enabled(w, Answer(reply)) && Accounted(w, cut, resolutions)
    ensures Accounted(Next(w, Answer(reply)), cut, resolutions)
  {
    var i := w.sync.value.batch[w.sync.value.pos];
    OpenIsIntact(w.tables, w.torn, i);
    FirstStatementCommands(w.tables, i, reply);
    AnswerIsSetState(w.tables, i, reply);
  }

  lemma ResolveAccounted(
    w: World, operationId: string, resolution: Resolution, cut: set<string>, resolutions: set<string>)
    requires WorldInv(w) && w.mark.None? && Accounted(w, cut, resolutions)
    ensures Accounted(Next(w, Resolve(operationId, resolution)), cut, resolutions)
  {
  }

  /** The mark in progress has torn its own command and no other mark of it is torn. */
  lemma MarkTears(t: Tables, sync: Option<Sync>, mark: Mark, torn: Torn)
    requires MarkFits(t.commands, torn, mark) && Fits(t, torn, t.commands[mark.row])
    ensures var w, id := World(t, sync, Some(mark), torn), t.commands[mark.row].operationId;
            match mark
            case Syncing(_) => MarkingNow(w) == torn.synced * {id} && ResolvingNow(w) == {} && id !in torn.conflicted
            case Conflicting(_, _) => MarkingNow(w) == {id} && ResolvingNow(w) == {} && id !in torn.synced
            case Resolving(_) => MarkingNow(w) == {} && ResolvingNow(w) == torn.resolved * {id}
  {
  }

  lemma MendedTears(
    torn: Torn, mark: Mark, id: string, marking: set<string>, resolving: set<string>, cut: set<string>,
    resolutions: set<string>)
    requires torn.synced + torn.conflicted == cut + marking && cut !! marking
    requires torn.resolved == resolutions + resolving
    requires match mark
             case Syncing(_) => marking == torn.synced * {id} && resolving == {} && id !in torn.conflicted
             case Conflicting(_, _) => marking == {id} && resolving == {} && id !in torn.synced
             case Resolving(_) => marking == {} && resolving == torn.resolved * {id}
    ensures var mended := Mend(torn, id, mark);
            mended.synced + mended.conflicted == cut && mended.resolved == resolutions - resolving
  {
  }

  lemma FinishAccounted(w: World, cut: set<string>, resolutions: set<string>)
    requires WorldInv(w) && w.mark.Some? && Accounted(w, cut, resolutions)
    ensures Accounted(Next(w, Finish), cut, resolutions - ResolvingNow(w))
  {
    var mark, id := w.mark.value, w.tables.commands[w.mark.value.row].operationId;
    var marking, resolving := MarkingNow(w), ResolvingNow(w);
    assert Fits(w.tables, w.torn, w.tables.commands[mark.row]);
    MarkTears(w.tables, w.sync, mark, w.torn);
    assert w == World(w.tables, w.sync, Some(mark), w.torn);
    MendedTears(w.torn, mark, id, marking, resolving, cut, resolutions);
    assert Next(w, Finish).torn == Mend(w.torn, id, mark) && Next(w, Finish).mark == None;
  }

  lemma ThrownTears(
    torn: Torn, mark: Mark, id: string, marking: set<string>, resolving: set<string>, cut: set<string>,
    resolutions: set<string>)
    requires torn.synced + torn.conflicted == cut + marking && cut !! marking
    requires torn.resolved == resolutions + resolving
    requires match mark
             case Syncing(_) => marking == torn.synced * {id} && resolving == {} && id !in torn.conflicted
             case Conflicting(_, _) => marking == {id} && resolving == {} && id !in torn.synced
             case Resolving(_) => marking == {}
    ensures var thrown := if mark.Resolving? then torn else Untear(torn, id);
            thrown.synced + thrown.conflicted == cut && thrown.resolved == resolutions + resolving
  {
  }

  lemma ThrowAccounted(w: World, cut: set<string>, resolutions: set<string>)
    requires WorldInv(w) && w.mark.Some? && Accounted(w, cut, resolutions)
    ensures Accounted(Next(w, Throw), cut, resolutions + ResolvingNow(w))
  {
    var mark, id := w.mark.value, w.tables.commands[w.mark.value.row].operationId;
    var marking, resolving, thrown := MarkingNow(w), ResolvingNow(w), Next(w, Throw);
    assert Fits(w.tables, w.torn, w.tables.commands[mark.row]);
    MarkTears(w.tables, w.sync, mark, w.torn);
    assert w == World(w.tables, w.sync, Some(mark), w.torn);
    ThrownTears(w.torn, mark, id, marking, resolving, cut, resolutions);
    assert thrown.torn == (if mark.Resolving? then w.torn else Untear(w.torn, id)) && thrown.mark == None;
    assert MarkingNow(thrown) == {} && ResolvingNow(thrown) == {};
  }

  lemma NextAccounted(w: World, step: Step, cut: set<string>, resolutions: set<string>)
    requires WorldInv(w) && Enabled(w, step) && Accounted(w, cut, resolutions)
    ensures Accounted(Next(w, step), CutBy(w, step, cut), ResolutionsCutBy(w, step, resolutions))
  {
    match step {
      case Answer(reply) => AnswerAccounted(w, reply, cut, resolutions);
      case Resolve(id, resolution) => ResolveAccounted(w, id, resolution, cut, resolutions);
      case Finish => FinishAccounted(w, cut, resolutions);
      case Throw => ThrowAccounted(w, cut, resolutions);
      case _ =>
    }
  }

  lemma {:induction false} TearsAccounted(worlds: seq<World>, steps: seq<Step>, n: nat)
    requires IsRun(worlds, steps) && n < |worlds|
    ensures Accounted(worlds[n], CutMarks(worlds, steps, n), CutResolutions(worlds, steps, n))
  {
    if n > 0 {
      var w, step := worlds[n - 1], steps[n - 1];
      TearsAccounted(worlds, steps, n - 1);
      RunKeeps(worlds, steps, n - 1);
      NextAccounted(w, step, CutMarks(worlds, steps, n - 1), CutResolutions(worlds, steps, n - 1));
    }
  }

  /** In every state that non-overlapping runs can reach, crashes between the statements of a mark included, each
      device's numbers are gapless and its answered commands form a prefix. The ledger and the conflict table agree with
      the log exactly when no crash has cut the mark of a cash payment or of a conflict, and every resolution that was
      cut has been completed since; while a mark is in progress, it counts as cut. */
  lemma ReplayOrderAndAgreement(worlds: seq<World>, steps: seq<Step>, n: nat)
    requires IsRun(worlds, steps) && n < |worlds|
    ensures LogInv(worlds[n].tables.commands)
    ensures TablesAgree(worlds[n].tables)
       <==> CutMarks(worlds, steps, n) + MarkingNow(worlds[n]) == {}
            && CutResolutions(worlds, steps, n) + ResolvingNow(worlds[n]) == {}
  {
    RunKeeps(worlds, steps, n);
    TearsAccounted(worlds, steps, n);
    AgreeExactlyWhenIntact(worlds[n].tables, worlds[n].torn);
  }

  // ---------- What a cut mark leaves behind ----------

  lemma {:induction false} CutsGrow(worlds: seq<World>, steps: seq<Step>, m: nat, n: nat)
    requires IsRun(worlds, steps) && m <= n < |worlds|
    ensures CutMarks(worlds, steps, m) <= CutMarks(worlds, steps, n)
  {
    if m < n {
      CutsGrow(worlds, steps, m, n - 1);
    }
  }

  /** The log has the command answered; its ledger row is still pending, or it has no conflict row. */
  ghost predicate HalfMarked(t: Tables, c: Command) {
    if c.state.Synced? then c.operationId in t.ledger && !t.ledger[c.operationId].synced
    else Contested(c) && c.operationId !in t.conflicts
  }

  lemma TornIsHalfMarked(t: Tables, torn: Torn, id: string)
    requires TablesFit(t, torn) && id in torn.synced + torn.conflicted
    ensures exists i | 0 <= i < |t.commands| :: t.commands[i].operationId == id && HalfMarked(t, t.commands[i])
  {
    assert HasCommand(t.commands, id);
    var i :| 0 <= i < |t.commands| && t.commands[i].operationId == id;
    assert Fits(t, torn, t.commands[i]);
  }

  ghost predicate LeavesOut(commands: seq<Command>, batch: seq<nat>, id: string) {
    forall i | i in batch && i < |commands| :: commands[i].operationId != id
  }

  /** A cut mark is never completed: from then on the command is half marked, no run loads it again, and the tables
      never agree again. */
  lemma CutMarkIsForGood(worlds: seq<World>, steps: seq<Step>, m: nat, n: nat, id: string)
    requires IsRun(worlds, steps) && m <= n < |worlds| && id in CutMarks(worlds, steps, m)
    ensures var t := worlds[n].tables;
            !TablesAgree(t)
            && (exists i | 0 <= i < |t.commands| :: t.commands[i].operationId == id && HalfMarked(t, t.commands[i]))
            && forall limit, batch | PendingBatch(t.commands, limit, batch) :: LeavesOut(t.commands, batch, id)
  {
    var t, torn := worlds[n].tables, worlds[n].torn;
    CutsGrow(worlds, steps, m, n);
    ReplayOrderAndAgreement(worlds, steps, n);
    RunKeeps(worlds, steps, n);
    TearsAccounted(worlds, steps, n);
    assert id in torn.synced + torn.conflicted;
    TornIsHalfMarked(t, torn, id);
    forall i | 0 <= i < |t.commands| && t.commands[i].operationId == id ensures Done(t.commands[i]) {
      TornIsDone(t, torn, i);
    }
  }

  /** An answer whose mark runs to its end has the effect of the whole mark and tears nothing. */
  lemma MarkCompletes(w: World, reply: Reply)
    requires WorldInv(w) && Enabled(w, Answer(reply)) && !reply.Unavailable?
    ensures var c := w.tables.commands[w.sync.value.batch[w.sync.value.pos]];
            var done := Next(Next(w, Answer(reply)), Finish);
            done.tables == AnswerCommand(w.tables, c, reply) && done.torn == w.torn && done.mark.None?
  {
    var i := w.sync.value.batch[w.sync.value.pos];
    OpenIsIntact(w.tables, w.torn, i);
    FirstStatementCommands(w.tables, i, reply);
    AnswerIsSetState(w.tables, i, reply);
  }

  /** So does a resolution, and it repairs an earlier one of the same command that was cut. */
  lemma ResolutionCompletes(w: World, operationId: string, resolution: Resolution)
    requires WorldInv(w) && w.mark.None? && ResolveConflict(w.tables, operationId, resolution).1.None?
    ensures Enabled(Next(w, Resolve(operationId, resolution)), Finish)
    ensures var done := Next(Next(w, Resolve(operationId, resolution)), Finish);
            done.tables == ResolveConflict(w.tables, operationId, resolution).0 && done.mark.None?
            && done.torn == w.torn.(resolved := w.torn.resolved - {operationId})
  {
    var i := FindCommand(w.tables.commands, operationId).value;
    TornByResolution(w.tables, w.torn, i);
    ResolutionFinishes(Next(w, Resolve(operationId, resolution)), i, operationId);
  }

  lemma ResolutionFinishes(w: World, i: nat, operationId: string)
    requires w.mark == Some(Resolving(i)) && i < |w.tables.commands| && w.tables.commands[i].operationId == operationId
    ensures Enabled(w, Finish)
    ensures Next(w, Finish) == World(BuryCommand(w.tables, operationId), w.sync, None,
                                     w.torn.(resolved := w.torn.resolved - {operationId}))
  {
  }

  lemma TornByResolution(t: Tables, torn: Torn, i: nat)
    requires TablesFit(t, torn) && i < |t.commands|
    ensures t.commands[i].operationId in torn.resolved ==> t.commands[i].operationId in t.conflicts
  {
    assert Fits(t, torn, t.commands[i]);
  }

  /** A resolution that was cut can be made again, with any action its operation allows. */
  lemma CutResolutionIsOpen(worlds: seq<World>, steps: seq<Step>, n: nat, operationId: string, resolution: Resolution)
    requires IsRun(worlds, steps) && n < |worlds| && operationId in CutResolutions(worlds, steps, n)
    ensures var t := worlds[n].tables;
            var at := FindCommand(t.commands, operationId);
            at.Some? && (ResolveConflict(t, operationId, resolution).1.None? <==>
                         !(resolution.AutoMerge? && NeverAutoMerge(t.commands[at.value].operation)))
  {
    RunKeeps(worlds, steps, n);
    TearsAccounted(worlds, steps, n);
    assert operationId in worlds[n].torn.resolved;
    TornResolutionIsOpen(worlds[n].tables, worlds[n].torn, operationId);
  }

  lemma TornResolutionIsOpen(t: Tables, torn: Torn, operationId: string)
    requires TablesFit(t, torn) && operationId in torn.resolved
    ensures var at := FindCommand(t.commands, operationId);
            at.Some? && t.commands[at.value].state.Conflict?
  {
    assert HasCommand(t.commands, operationId);
    assert Fits(t, torn, t.commands[FindCommand(t.commands, operationId).value]);
  }

  /** Row i keeps its command; an answered one is opened again exactly by an answer's mark that throws on it. */
  lemma DoneStaysExactly(w: World, step: Step, i: nat)
    requires WorldInv(w) && Enabled(w, step) && i < |w.tables.commands|
    ensures var before, after := w.tables.commands, Next(w, step).tables.commands;
            i < |after| && after[i].operationId == before[i].operationId
            && (Done(before[i]) ==>
                  (!Done(after[i]) <==> step.Throw? && !w.mark.value.Resolving? && w.mark.value.row == i))
  {
    match step {
      case LanCommand(input) => LogGrows(w.tables, input);
      case Load(snapshot) => SnapshotTouchesCacheOnly(w.tables, snapshot);
      case Answer(reply) => AnswerKeepsDone(w, reply, i);
      case Finish => SecondStatementLog(w.tables, w.torn, w.mark.value);
      case Throw => SetStateAt(w.tables.commands, w.mark.value.row, Retry, 1);
      case _ =>
    }
  }

  lemma AnswerKeepsDone(w: World, reply: Reply, i: nat)
    requires WorldInv(w) && Enabled(w, Answer(reply)) && i < |w.tables.commands|
    ensures var before, after := w.tables.commands, Next(w, Answer(reply)).tables.commands;
            |after| == |before| && after[i].operationId == before[i].operationId && (Done(before[i]) ==> Done(after[i]))
  {
    var row := w.sync.value.batch[w.sync.value.pos];
    FirstStatementCommands(w.tables, row, reply);
    AnswerIsSetState(w.tables, row, reply);
  }

  // ---------- A cash payment whose mark is cut ----------

  lemma OnlyOpenIsPending(commands: seq<Command>)
    requires |commands| == 1 && !Done(commands[0])
    ensures PendingBatch(commands, 100, [0])
  {
    assert 0 in [0];
  }

  /** The one command of the hub is an open cash payment: a run loads it, the cloud takes it, and the hub crashes in the
      middle of its mark. */
  lemma CutPayment(w: World, start: Step) returns (loaded: World, answered: World, cut: World)
    requires WorldInv(w) && w.mark.None? && w.sync.None? && start == StartSync(100, [0])
    requires |w.tables.commands| == 1 && !Done(w.tables.commands[0]) && IsCash(w.tables.commands[0])
    ensures Enabled(w, start) && loaded == Next(w, start)
    ensures Enabled(loaded, Answer(Ok)) && answered == Next(loaded, Answer(Ok))
    ensures Enabled(answered, Crash) && cut == Next(answered, Crash) && WorldInv(cut)
    ensures |cut.tables.commands| == 1 && cut.tables.commands[0].operationId in cut.torn.synced
  {
    OnlyOpenIsPending(w.tables.commands);
    loaded := Next(w, start);
    NextKeeps(w, start);
    AnswerIsSetState(w.tables, 0, Ok);
    answered := Next(loaded, Answer(Ok));
    NextKeeps(loaded, Answer(Ok));
    cut := Next(answered, Crash);
    NextKeeps(answered, Crash);
  }

  lemma PaymentTaken(w: World, snapshot: Snapshot, input: CommandInput) returns (hub: World, paid: World)
    requires WorldInv(w) && w.tables == EMPTY_TABLES && w.sync.None? && w.mark.None?
    requires snapshot == FIRST_SNAPSHOT && input == PaymentInput('a')
    ensures hub == Next(w, Load(snapshot)) && paid == Next(hub, LanCommand(input))
    ensures hub.sync.None? && hub.mark.None? && paid.sync.None? && paid.mark.None?
    ensures CreateCommand(hub.tables, input).1.Created?
    ensures WorldInv(paid) && |paid.tables.commands| == 1 && !Done(paid.tables.commands[0])
            && IsCash(paid.tables.commands[0])
  {
    SnapshotGivesHub();
    HubHasNoCurrency();
    PaymentAccepted(HUB, 'a');
    hub := Next(w, Load(snapshot));
    NextKeeps(w, Load(snapshot));
    paid := Next(hub, LanCommand(input));
    NextKeeps(hub, LanCommand(input));
  }

  /** One step of a run, seen as a whole. */
  ghost predicate Follows(w: World, step: Step, w': World) {
    Enabled(w, step) && w' == Next(w, step)
  }

  lemma FiveSteps<W, S>(
    next: (W, S, W) -> bool, w0: W, w1: W, w2: W, w3: W, w4: W, w5: W, s0: S, s1: S, s2: S, s3: S, s4: S)
    requires next(w0, s0, w1) && next(w1, s1, w2) && next(w2, s2, w3) && next(w3, s3, w4) && next(w4, s4, w5)
    ensures var worlds, steps := [w0, w1, w2, w3, w4, w5], [s0, s1, s2, s3, s4];
            forall i | 0 <= i < 5 :: next(worlds[i], steps[i], worlds[i + 1])
  {
  }

  lemma RunOf(
    w0: World, w1: World, w2: World, w3: World, w4: World, w5: World, s0: Step, s1: Step, s2: Step, s3: Step, s4: Step)
    requires w0 == EMPTY && Follows(w0, s0, w1) && Follows(w1, s1, w2) && Follows(w2, s2, w3) && Follows(w3, s3, w4)
    requires Follows(w4, s4, w5)
    ensures IsRun([w0, w1, w2, w3, w4, w5], [s0, s1, s2, s3, s4])
  {
    FiveSteps((w, step, w') => Follows(w, step, w'), w0, w1, w2, w3, w4, w5, s0, s1, s2, s3, s4);
    FollowedIsRun([w0, w1, w2, w3, w4, w5], [s0, s1, s2, s3, s4]);
  }

  lemma FollowedIsRun(worlds: seq<World>, steps: seq<Step>)
    requires |worlds| == |steps| + 1 && worlds[0] == EMPTY
    requires forall i | 0 <= i < |steps| :: Follows(worlds[i], steps[i], worlds[i + 1])
    ensures IsRun(worlds, steps)
  {
    forall i | 0 <= i < |steps| ensures Enabled(worlds[i], steps[i]) && worlds[i + 1] == Next(worlds[i], steps[i]) {
      assert Follows(worlds[i], steps[i], worlds[i + 1]);
    }
  }

  lemma EmptyKeeps()
    ensures WorldInv(EMPTY)
  {
  }

  lemma TornPaymentIsHalfMarked(w: World)
    requires WorldInv(w) && |w.tables.commands| == 1 && w.tables.commands[0].operationId in w.torn.synced
    ensures w.tables.commands[0].state.Synced? && HalfMarked(w.tables, w.tables.commands[0]) && !TablesAgree(w.tables)
  {
    assert Fits(w.tables, w.torn, w.tables.commands[0]);
    AgreeExactlyWhenIntact(w.tables, w.torn);
  }

  /** From the empty hub: a snapshot, an accepted payment of one yen, a run whose answer is OK, and a crash between the
      two statements of the mark. The payment is SYNCED in the log and stays PENDING in the ledger. */
  lemma CrashInsideAMark(snapshot: Snapshot, input: CommandInput, start: Step)
    returns (hub: World, paid: World, loaded: World, answered: World, cut: World)
    requires snapshot == FIRST_SNAPSHOT && input == PaymentInput('a') && start == StartSync(100, [0])
    ensures IsRun([EMPTY, hub, paid, loaded, answered, cut],
        [Load(snapshot), LanCommand(input), start, Answer(Ok), Crash])
    ensures CreateCommand(hub.tables, input).1.Created?
    ensures var t := cut.tables;
            |t.commands| == 1 && t.commands[0].state.Synced? && HalfMarked(t, t.commands[0]) && !TablesAgree(t)
  {
    EmptyKeeps();
    hub, paid := PaymentTaken(EMPTY, snapshot, input);
    loaded, answered, cut := CutPayment(paid, start);
    TornPaymentIsHalfMarked(cut);
    RunOf(EMPTY, hub, paid, loaded, answered, cut, Load(snapshot), LanCommand(input), start, Answer(Ok), Crash);
  }

  // ---------- Overlapping runs ----------

  const BY_OWNER: Payload := map[OperatorUserId := Str("u")]

  function OrderInput(letter: char): CommandInput {
    OwnerInput(OrderCreate, letter, [letter], BY_OWNER)
  }

  /** A hub that starts empty, takes in its first snapshot and then two orders. */
  const TWO_ORDERS: Tables :=
    CreateCommand(CreateCommand(ApplySnapshot(EMPTY_TABLES, FIRST_SNAPSHOT).0, OrderInput('a')).0, OrderInput('b')).0

  lemma OrderAccepted(t: Tables, letters: string, letter: char)
    requires Staffed(t, letters) && letter !in letters && EdgeStore.IsHex(letter)
    ensures var (t', outcome) := CreateCommand(t, OrderInput(letter));
            outcome.Created? && Staffed(t', letters + [letter]) && t'.conflicts == t.conflicts
            && t'.commands == t.commands + [outcome.command] && !Done(outcome.command)
            && outcome.command.deviceId == "pos-a"
  {
    OwnerCommand(t, letters, OrderCreate, letter, [letter], BY_OWNER);
  }

  lemma TwoOrdersAccepted()
    ensures var hub := ApplySnapshot(EMPTY_TABLES, FIRST_SNAPSHOT).0;
            var first := CreateCommand(hub, OrderInput('a'));
            first.1.Created? && CreateCommand(first.0, OrderInput('b')).1.Created?
    ensures TwoOpen(TWO_ORDERS.commands)
  {
    SnapshotGivesHub();
    OrdersAccepted(HUB);
  }

  ghost predicate TwoOpen(commands: seq<Command>) {
    LogInv(commands) && |commands| == 2 && !Done(commands[0]) && !Done(commands[1])
    && commands[0].deviceId == commands[1].deviceId
  }

  lemma OrdersAccepted(hub: Tables)
    requires Staffed(hub, "") && hub.commands == []
    ensures var first := CreateCommand(hub, OrderInput('a'));
            var second := CreateCommand(first.0, OrderInput('b'));
            first.1.Created? && second.1.Created? && TwoOpen(second.0.commands)
  {
    var first := CreateCommand(hub, OrderInput('a'));
    OrderAccepted(hub, "", 'a');
    CreateKeepsLog(hub, OrderInput('a'));
    OrderAccepted(first.0, "a", 'b');
    CreateKeepsLog(first.0, OrderInput('b'));
  }

  lemma BothPending(commands: seq<Command>)
    requires TwoOpen(commands)
    ensures PendingBatch(commands, 100, [0, 1])
  {
    SequenceOrder(commands, 0, 1);
    assert 0 in [0, 1] && 1 in [0, 1];
  }

  /** The row answered OK and marked to the end. */
  ghost function MarkedOk(w: World): World
    requires Enabled(w, Answer(Ok))
  {
    Next(Next(w, Answer(Ok)), Finish)
  }

  /** Two runs have loaded the same two rows; the first has both settled, then a request of the second goes
      unanswered. */
  ghost predicate SecondReopens(t: Tables) {
    var mine, other := Sync([0, 1], 0), Sync([0, 1], 0);
    var w1 := World(t, Some(mine), None, INTACT);
    PendingBatch(t.commands, 100, mine.batch) && PendingBatch(t.commands, 100, other.batch)
    && Enabled(w1, Answer(Ok)) && Enabled(MarkedOk(w1), Answer(Ok))
    && var w2 := MarkedOk(MarkedOk(w1));
       w2.sync.None? && Enabled(w2.(sync := Some(other)), Answer(Unavailable))
       && !PrefixDone(Next(w2.(sync := Some(other)), Answer(Unavailable)).tables.commands)
  }

  /** Why the runs must not overlap: from an empty hub, over a snapshot and two accepted orders, to an order back in
      RETRY behind a settled one of the same device. */
  lemma OverlapBreaksOrder()
    ensures SecondReopens(TWO_ORDERS)
  {
    TwoOrdersAccepted();
    ReopenedBehind(TWO_ORDERS);
  }

  lemma ReopenedBehind(t: Tables)
    requires TwoOpen(t.commands)
    ensures SecondReopens(t)
  {
    BothPending(t.commands);
    var w1 := World(t, Some(Sync([0, 1], 0)), None, INTACT);
    MarkedRow(w1);
    var w2 := MarkedOk(w1);
    MarkedRow(w2);
    var w3 := MarkedOk(w2).(sync := Some(Sync([0, 1], 0)));
    AnswerIsSetState(w3.tables, 0, Unavailable);
    var commands := Next(w3, Answer(Unavailable)).tables.commands;
    assert !Done(commands[0]) && Done(commands[1]);
  }

  lemma MarkedRow(w: World)
    requires UniqueIds(w.tables.commands) && Enabled(w, Answer(Ok))
    ensures var i := w.sync.value.batch[w.sync.value.pos];
            var after := MarkedOk(w).tables.commands;
            UniqueIds(after)
            && after == w.tables.commands[i := w.tables.commands[i].(
                 state := Synced, attempts := w.tables.commands[i].attempts + 1)]
  {
    AnswerIsSetState(w.tables, w.sync.value.batch[w.sync.value.pos], Ok);
  }
}
