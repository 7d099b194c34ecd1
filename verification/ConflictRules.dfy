/** continuity.js and offline-policy.js: what the answers of the cloud and the resolutions of operators record. */
module ConflictRules {
  import opened Options
  import opened ContinuityData
  import opened Continuity

  /** Payments in cash or by card, refunds, stored value, closing the till and fiscal documents. */
  predicate Financial(op: Operation) {
    op == CashPayment
    || op in {Uncertified("CARD_PAYMENT"), Uncertified("REFUND"), Uncertified("STORED_VALUE"),
              Uncertified("CASH_CLOSE"), Uncertified("FISCAL_ISSUE")}
  }

  function ClassOf(op: Operation, code: string): string {
    var classes := map["RESOURCE_CONFLICT" := "RESOURCE_OPERATOR_RESOLUTION",
                       "VERSION_CONFLICT" := "STALE_AGGREGATE_OPERATOR_RESOLUTION",
                       "RESERVATION_CONFLICT" := "RESERVATION_OPERATOR_RESOLUTION",
                       "INVENTORY_CONFLICT" := "INVENTORY_OPERATOR_RESOLUTION"];
    if Financial(op) then "FINANCIAL_MANUAL_REVIEW"
    else if code in classes then classes[code] else "OPERATOR_RESOLUTION"
  }

  lemma ClassExactly(op: Operation, code: string)
    ensures NeverAutoMerge(op) <==> Financial(op)
    ensures ConflictClass(op, code) == ClassOf(op, code)
  {
  }

  ghost predicate OnlyCommand(before: seq<Command>, after: seq<Command>, id: string, state: CommandState, tries: nat) {
    |after| == |before|
    && forall i | 0 <= i < |before| ::
      after[i] == if before[i].operationId == id
                  then before[i].(state := state, attempts := before[i].attempts + tries) else before[i]
  }

  /** A refusal puts the command in conflict with its class and code, and keeps a resolution that was made. */
  lemma RefusalRecorded(t: Tables, id: string, op: Operation, code: string)
    ensures var t' := MarkConflict(t, id, op, code);
            OnlyCommand(t.commands, t'.commands, id, Conflict, 1) && t'.cache == t.cache && t'.ledger == t.ledger
            && t'.conflicts == t.conflicts[id := ConflictRow(ClassOf(op, code), code,
                 if id in t.conflicts then t.conflicts[id].resolution else None)]
  {
    ClassExactly(op, code);
  }

  /** An answer that is OK makes the command synced, and its ledger row if it has one; a missing answer puts it back. */
  lemma AnswerRecorded(t: Tables, id: string)
    ensures var t' := MarkSynced(t, id);
            OnlyCommand(t.commands, t'.commands, id, Synced, 1) && t'.cache == t.cache && t'.conflicts == t.conflicts
            && t'.ledger == if id in t.ledger then t.ledger[id := t.ledger[id].(synced := true)] else t.ledger
    ensures var t' := MarkRetry(t, id);
            OnlyCommand(t.commands, t'.commands, id, Retry, 1) && t' == t.(commands := t'.commands)
  {
  }

  ghost predicate InConflict(commands: seq<Command>, id: string) {
    exists i | 0 <= i < |commands| :: commands[i].operationId == id && commands[i].state == Conflict
  }

  ghost predicate IsFinancial(commands: seq<Command>, id: string) {
    exists i | 0 <= i < |commands| :: commands[i].operationId == id && Financial(commands[i].operation)
  }

  lemma FoundCommand(commands: seq<Command>, id: string)
    requires UniqueIds(commands)
    ensures var at := FindCommand(commands, id);
            (InConflict(commands, id) <==> at.Some? && commands[at.value].state.Conflict?)
            && (IsFinancial(commands, id) <==> at.Some? && NeverAutoMerge(commands[at.value].operation))
  {
    var at := FindCommand(commands, id);
    if at.Some? {
      ClassExactly(commands[at.value].operation, "");
    }
  }

  /** A resolution is refused exactly when the command is not in conflict, or would be merged automatically although it
      is financial; otherwise it is noted on the conflict and buries the command. */
  lemma ResolvesExactly(t: Tables, id: string, resolution: Resolution)
    requires UniqueIds(t.commands)
    ensures var (t', fault) := ResolveConflict(t, id, resolution);
            if !InConflict(t.commands, id) then t' == t && fault == Some(ConflictNotFound)
            else if resolution == AutoMerge && IsFinancial(t.commands, id) then
              t' == t && fault == Some(FinancialManualReview)
            else
              fault == None && OnlyCommand(t.commands, t'.commands, id, DeadLetter, 0)
              && t'.cache == t.cache && t'.ledger == t.ledger
              && t'.conflicts == if id !in t.conflicts then t.conflicts
                                 else t.conflicts[id := t.conflicts[id].(resolution := Some(resolution))]
  {
    FoundCommand(t.commands, id);
  }
}
