/** continuity.js: what the tables hold when the two statements of a mark are cut apart. */
module TornMarks {
  import opened Options
  import opened ContinuityData
  import opened Continuity

  /** Operations whose mark has done its first statement and not its second: cash payments marked SYNCED, commands
      marked CONFLICT, and conflicts whose resolution is recorded. */
  datatype Torn = Torn(synced: set<string>, conflicted: set<string>, resolved: set<string>)

  const INTACT := Torn({}, {}, {})

  function AllTorn(torn: Torn): set<string> {
    torn.synced + torn.conflicted + torn.resolved
  }

  ghost predicate LedgerHas(t: Tables, c: Command) {
    (IsCash(c) <==> c.operationId in t.ledger)
    && (IsCash(c) ==> AmountFits(t.ledger[c.operationId], c.payload))
  }

  /** The ledger row, if any, is synced exactly when the command is. */
  ghost predicate LedgerState(t: Tables, c: Command) {
    c.operationId in t.ledger ==> (t.ledger[c.operationId].synced <==> c.state.Synced?)
  }

  ghost predicate ConflictState(t: Tables, c: Command) {
    (c.operationId in t.conflicts <==> Contested(c))
    && (c.operationId in t.conflicts ==>
          (t.conflicts[c.operationId].resolution.None? <==> c.state.Conflict?) && MayMerge(t, c))
  }

  ghost predicate MayMerge(t: Tables, c: Command)
    requires c.operationId in t.conflicts
  {
    t.conflicts[c.operationId].resolution == Some(AutoMerge) ==> !NeverAutoMerge(c.operation)
  }

  /** What the other tables hold for one command, torn or not. */
  ghost predicate Fits(t: Tables, torn: Torn, c: Command) {
    var id := c.operationId;
    LedgerHas(t, c)
    && if id in torn.synced then
         IsCash(c) && c.state.Synced? && !t.ledger[id].synced && id !in t.conflicts
         && id !in torn.conflicted && id !in torn.resolved
       else if id in torn.conflicted then
         LedgerState(t, c) && Contested(c) && id !in t.conflicts && id !in torn.resolved
       else if id in torn.resolved then
         LedgerState(t, c) && c.state.Conflict? && id in t.conflicts
         && t.conflicts[id].resolution.Some? && MayMerge(t, c)
       else LedgerState(t, c) && ConflictState(t, c)
  }

  ghost predicate TablesFit(t: Tables, torn: Torn) {
    (forall i | 0 <= i < |t.commands| :: Fits(t, torn, t.commands[i]))
    && (forall id | id in t.ledger :: HasCommand(t.commands, id))
    && (forall id | id in t.conflicts :: HasCommand(t.commands, id))
    && (forall id | id in AllTorn(torn) :: HasCommand(t.commands, id))
  }

  lemma RowFitsExactly(t: Tables, torn: Torn, c: Command)
    requires Fits(t, torn, c)
    ensures RowsFit(t, c) <==> c.operationId !in AllTorn(torn)
  {
  }

  /** The tables agree exactly when no mark is torn. */
  lemma AgreeExactlyWhenIntact(t: Tables, torn: Torn)
    requires TablesFit(t, torn)
    ensures TablesAgree(t) <==> torn == INTACT
  {
    forall i | 0 <= i < |t.commands|
      ensures RowsFit(t, t.commands[i]) <==> t.commands[i].operationId !in AllTorn(torn)
    {
      RowFitsExactly(t, torn, t.commands[i]);
    }
    if torn != INTACT {
      var id :| id in AllTorn(torn);
      var i :| 0 <= i < |t.commands| && t.commands[i].operationId == id;
      assert !RowsFit(t, t.commands[i]);
    }
  }

  lemma TornIsDone(t: Tables, torn: Torn, i: nat)
    requires TablesFit(t, torn) && i < |t.commands| && t.commands[i].operationId in AllTorn(torn)
    ensures Done(t.commands[i])
  {
    assert Fits(t, torn, t.commands[i]);
  }

  // ---------- Changes ----------

  ghost predicate SameRowsOf(t: Tables, t': Tables, id: string) {
    (id in t'.ledger <==> id in t.ledger) && (id in t.ledger ==> t'.ledger[id] == t.ledger[id])
    && (id in t'.conflicts <==> id in t.conflicts) && (id in t.conflicts ==> t'.conflicts[id] == t.conflicts[id])
  }

  ghost predicate SameTears(torn: Torn, torn': Torn, id: string) {
    (id in torn.synced <==> id in torn'.synced) && (id in torn.conflicted <==> id in torn'.conflicted)
    && (id in torn.resolved <==> id in torn'.resolved)
  }

  lemma AddedCommandFits(t: Tables, t': Tables, c: Command, torn: Torn)
    requires TablesFit(t, torn) && RowsFit(t', c)
    requires t'.commands == t.commands + [c]
    requires forall j | 0 <= j < |t.commands| :: t.commands[j].operationId != c.operationId
    requires forall id | id != c.operationId :: SameRowsOf(t, t', id)
    ensures TablesFit(t', torn)
  {
    assert !HasCommand(t.commands, c.operationId);
    assert t'.commands[|t.commands|] == c;
    forall i | 0 <= i < |t'.commands| ensures Fits(t', torn, t'.commands[i]) {
      if i < |t.commands| {
        assert Fits(t, torn, t.commands[i]);
        assert SameRowsOf(t, t', t.commands[i].operationId);
      }
    }
    forall id | HasCommand(t.commands, id) ensures HasCommand(t'.commands, id) {
      var i :| 0 <= i < |t.commands| && t.commands[i].operationId == id;
      assert t'.commands[i].operationId == id;
    }
    forall id | id != c.operationId && (id in t'.ledger || id in t'.conflicts) ensures HasCommand(t'.commands, id) {
      assert SameRowsOf(t, t', id);
    }
    assert HasCommand(t'.commands, c.operationId);
  }

  /** A change of one command, of its rows and of its tears. */
  lemma ChangedCommandFits(t: Tables, t': Tables, i: nat, torn: Torn, torn': Torn)
    requires UniqueIds(t.commands) && TablesFit(t, torn) && i < |t.commands| && |t'.commands| == |t.commands|
    requires t'.commands[i].operationId == t.commands[i].operationId
    requires forall j | 0 <= j < |t.commands| && j != i :: t'.commands[j] == t.commands[j]
    requires forall id | id != t.commands[i].operationId :: SameRowsOf(t, t', id) && SameTears(torn, torn', id)
    requires Fits(t', torn', t'.commands[i])
    ensures TablesFit(t', torn')
  {
    forall j | 0 <= j < |t'.commands| ensures Fits(t', torn', t'.commands[j]) {
      if j != i {
        assert Fits(t, torn, t.commands[j]);
        assert t.commands[j].operationId != t.commands[i].operationId;
        assert SameRowsOf(t, t', t.commands[j].operationId) && SameTears(torn, torn', t.commands[j].operationId);
      }
    }
    forall id | id in t'.ledger || id in t'.conflicts || id in AllTorn(torn') ensures HasCommand(t'.commands, id) {
      if id == t.commands[i].operationId {
        assert t'.commands[i].operationId == id;
      } else {
        assert SameRowsOf(t, t', id) && SameTears(torn, torn', id);
        assert id in t.ledger || id in t.conflicts || id in AllTorn(torn);
        OwnerStays(t.commands, t'.commands, i, id);
      }
    }
  }

  lemma OwnerStays(commands: seq<Command>, after: seq<Command>, i: nat, id: string)
    requires HasCommand(commands, id) && i < |commands| == |after| && id != commands[i].operationId
    requires forall j | 0 <= j < |commands| && j != i :: after[j] == commands[j]
    ensures HasCommand(after, id)
  {
    var j :| 0 <= j < |commands| && commands[j].operationId == id;
    assert after[j].operationId == id;
  }

  lemma SameTablesFit(t: Tables, t': Tables, torn: Torn)
    requires TablesFit(t, torn) && t'.commands == t.commands && t'.ledger == t.ledger && t'.conflicts == t.conflicts
    ensures TablesFit(t', torn)
  {
    forall i | 0 <= i < |t'.commands| ensures Fits(t', torn, t'.commands[i]) {
      assert Fits(t, torn, t.commands[i]);
    }
  }

  lemma CreateFits(t: Tables, input: CommandInput, torn: Torn)
    requires TablesFit(t, torn)
    ensures TablesFit(CreateCommand(t, input).0, torn)
  {
    var (t', outcome) := CreateCommand(t, input);
    if outcome.Created? {
      CreateShape(t, input);
      NewRowFits(t, t', outcome.command, torn);
      AddedCommandFits(t, t', outcome.command, torn);
    }
  }

  lemma NewRowFits(t: Tables, t': Tables, c: Command, torn: Torn)
    requires TablesFit(t, torn) && t'.conflicts == t.conflicts && c.state == Pending
    requires forall j | 0 <= j < |t.commands| :: t.commands[j].operationId != c.operationId
    requires if IsCash(c)
             then c.operationId in t'.ledger && t'.ledger == t.ledger[c.operationId := t'.ledger[c.operationId]]
                  && AmountFits(t'.ledger[c.operationId], c.payload) && !t'.ledger[c.operationId].synced
             else t'.ledger == t.ledger
    ensures RowsFit(t', c) && forall id | id != c.operationId :: SameRowsOf(t, t', id)
  {
    assert !HasCommand(t.commands, c.operationId);
  }

  // ---------- The statements of the marks ----------

  /** Only a cash payment has a row that the second statement of markSynced changes. */
  function TearSync(torn: Torn, c: Command): Torn {
    if IsCash(c) then torn.(synced := torn.synced + {c.operationId}) else torn
  }

  lemma SyncCommandFits(t: Tables, i: nat, torn: Torn)
    requires UniqueIds(t.commands) && TablesFit(t, torn) && i < |t.commands| && !Done(t.commands[i])
    ensures TablesFit(SyncCommand(t, t.commands[i].operationId), TearSync(torn, t.commands[i]))
  {
    SetStateAt(t.commands, i, Synced, 1);
    SyncedTablesFit(t, SyncCommand(t, t.commands[i].operationId), i, torn, TearSync(torn, t.commands[i]));
  }

  lemma SyncedTablesFit(t: Tables, t': Tables, i: nat, torn: Torn, torn': Torn)
    requires UniqueIds(t.commands) && TablesFit(t, torn) && i < |t.commands| && !Done(t.commands[i])
    requires |t'.commands| == |t.commands| && t'.ledger == t.ledger && t'.conflicts == t.conflicts
    requires forall j | 0 <= j < |t.commands| && j != i :: t'.commands[j] == t.commands[j]
    requires t'.commands[i] == t.commands[i].(state := Synced, attempts := t'.commands[i].attempts)
    requires torn' == TearSync(torn, t.commands[i])
    ensures TablesFit(t', torn')
  {
    var c := t.commands[i];
    assert Fits(t, torn, c);
    SyncedRowFits(t, t', torn, torn', c, t'.commands[i]);
    forall id | id != c.operationId ensures SameTears(torn, torn', id) {
      TearsElsewhere(torn, c, id);
    }
    ChangedCommandFits(t, t', i, torn, torn');
  }

  lemma TearsElsewhere(torn: Torn, c: Command, id: string)
    requires id != c.operationId
    ensures SameTears(torn, TearSync(torn, c), id)
  {
  }

  lemma SyncedRowFits(t: Tables, t': Tables, torn: Torn, torn': Torn, c: Command, c': Command)
    requires Fits(t, torn, c) && !Done(c) && t'.ledger == t.ledger && t'.conflicts == t.conflicts
    requires c' == c.(state := Synced, attempts := c'.attempts)
    requires torn' == TearSync(torn, c)
    ensures Fits(t', torn', c')
  {
    assert c.operationId !in AllTorn(torn);
  }

  lemma SyncLedgerFits(t: Tables, i: nat, torn: Torn)
    requires UniqueIds(t.commands) && TablesFit(t, torn) && i < |t.commands| && t.commands[i].state.Synced?
    ensures var id := t.commands[i].operationId;
            TablesFit(SyncLedger(t, id), torn.(synced := torn.synced - {id}))
  {
    var id := t.commands[i].operationId;
    assert Fits(t, torn, t.commands[i]);
    ChangedCommandFits(t, SyncLedger(t, id), i, torn, torn.(synced := torn.synced - {id}));
  }

  lemma ConflictCommandFits(t: Tables, i: nat, torn: Torn)
    requires UniqueIds(t.commands) && TablesFit(t, torn) && i < |t.commands| && !Done(t.commands[i])
    ensures var id := t.commands[i].operationId;
            TablesFit(ConflictCommand(t, id), torn.(conflicted := torn.conflicted + {id}))
  {
    var id := t.commands[i].operationId;
    assert Fits(t, torn, t.commands[i]);
    SetStateAt(t.commands, i, Conflict, 1);
    ChangedCommandFits(t, ConflictCommand(t, id), i, torn, torn.(conflicted := torn.conflicted + {id}));
  }

  lemma RecordConflictFits(t: Tables, i: nat, torn: Torn, code: string)
    requires UniqueIds(t.commands) && TablesFit(t, torn) && i < |t.commands| && t.commands[i].state.Conflict?
    requires t.commands[i].operationId in torn.conflicted
    ensures var id := t.commands[i].operationId;
            TablesFit(RecordConflict(t, id, t.commands[i].operation, code), torn.(conflicted := torn.conflicted - {id}))
  {
    var id := t.commands[i].operationId;
    assert Fits(t, torn, t.commands[i]);
    ChangedCommandFits(t, RecordConflict(t, id, t.commands[i].operation, code), i, torn,
      torn.(conflicted := torn.conflicted - {id}));
  }

  lemma RecordResolutionFits(t: Tables, i: nat, torn: Torn, resolution: Resolution)
    requires UniqueIds(t.commands) && TablesFit(t, torn) && i < |t.commands| && t.commands[i].state.Conflict?
    requires !(NeverAutoMerge(t.commands[i].operation) && resolution.AutoMerge?)
    ensures var id := t.commands[i].operationId;
            TablesFit(RecordResolution(t, id, resolution),
                      if id in t.conflicts then torn.(resolved := torn.resolved + {id}) else torn)
  {
    var id := t.commands[i].operationId;
    assert Fits(t, torn, t.commands[i]);
    ChangedCommandFits(t, RecordResolution(t, id, resolution), i, torn,
      if id in t.conflicts then torn.(resolved := torn.resolved + {id}) else torn);
  }

  lemma BuryFits(t: Tables, i: nat, torn: Torn)
    requires UniqueIds(t.commands) && TablesFit(t, torn) && i < |t.commands| && t.commands[i].state.Conflict?
    requires t.commands[i].operationId in torn.conflicted + torn.resolved
    ensures var id := t.commands[i].operationId;
            TablesFit(BuryCommand(t, id), torn.(resolved := torn.resolved - {id}))
  {
    var id := t.commands[i].operationId;
    assert Fits(t, torn, t.commands[i]);
    SetStateAt(t.commands, i, DeadLetter, 0);
    ChangedCommandFits(t, BuryCommand(t, id), i, torn, torn.(resolved := torn.resolved - {id}));
  }

  function Untear(torn: Torn, id: string): Torn {
    torn.(synced := torn.synced - {id}, conflicted := torn.conflicted - {id})
  }

  /** Putting an open command, or one whose mark is torn, back to RETRY. */
  lemma RetryFits(t: Tables, i: nat, torn: Torn)
    requires UniqueIds(t.commands) && TablesFit(t, torn) && i < |t.commands|
    requires !Done(t.commands[i]) || t.commands[i].operationId in torn.synced + torn.conflicted
             || (t.commands[i].state.Synced? && !IsCash(t.commands[i]))
    ensures TablesFit(MarkRetry(t, t.commands[i].operationId), Untear(torn, t.commands[i].operationId))
  {
    var id := t.commands[i].operationId;
    assert Fits(t, torn, t.commands[i]);
    SetStateAt(t.commands, i, Retry, 1);
    ChangedCommandFits(t, MarkRetry(t, id), i, torn, Untear(torn, id));
  }
}
