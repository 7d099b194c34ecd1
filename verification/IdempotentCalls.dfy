/** idempotency.util.ts: what one call is answered. */
module IdempotentCalls {
  import opened Options
  import opened Idempotency

  /** Both hashes are given, and they differ. */
  predicate Differ(stored: Option<string>, incoming: Option<string>) {
    stored.Some? && incoming.Some? && stored.value != "" && incoming.value != "" && stored.value != incoming.value
  }

  lemma MatchesExactly(stored: Option<string>, incoming: Option<string>)
    ensures HashesMatch(stored, incoming) <==> !Differ(stored, incoming)
  {
  }

  /** The receipt answers now. */
  predicate Answers(w: World) {
    w.receipt.Some? && w.receipt.value.completed && w.now < w.receipt.value.expiresAt
  }

  predicate IsPending(w: World) {
    w.receipt.Some? && !w.receipt.value.completed && w.now < w.receipt.value.expiresAt
  }

  /** The three places where a caller looks at the receipt for an answer. */
  predicate LooksForAnswer(w: World, a: Action) {
    match a
    case LoadReceipt(c) => c < |w.callers| && w.callers[c].pc.Loading?
    case LoadRaced(c) => c < |w.callers| && w.callers[c].pc.LoadingRaced?
    case Poll(c) => c < |w.callers| && w.callers[c].pc.Waiting? && w.callers[c].pc.left > 0
    case _ => false
  }

  /** Besides caller c and the memory of its process, nothing has changed. */
  ghost predicate OnlyCaller(w: World, w': World, c: nat)
    requires c < |w.callers|
  {
    |w'.callers| == |w.callers| && (forall d | 0 <= d < |w.callers| && d != c :: w'.callers[d] == w.callers[d])
    && w'.now == w.now && w'.successes == w.successes
    && forall p | p != w.callers[c].process ::
      (p in w'.memory <==> p in w.memory) && (p in w.memory ==> w'.memory[p] == w.memory[p])
  }

  /** An answer found by loading, after a lost race or by polling is returned and remembered by the process. */
  lemma AnswerIsReplayed(w: World, a: Action)
    requires LooksForAnswer(w, a) && Answers(w) && !Differ(w.receipt.value.hash, w.callers[a.c].hash)
    ensures var c, r, w' := a.c, w.receipt.value, Next(Next(w, a), Publish(a.c));
            OnlyCaller(w, w', c) && w'.receipt == w.receipt && w'.callers[c].pc == Returned(r.response)
            && w.callers[c].process in w'.memory
            && w'.memory[w.callers[c].process] == Entry(r.response, r.hash, w.now + w.callers[c].ttl)
  {
    var w1 := Next(w, a);
    assert w1 == w.(callers := w.callers[a.c := w.callers[a.c].(
                      pc := Publishing(w.receipt.value.response, w.receipt.value.hash))]);
  }

  /** An answer the process still remembers is returned at once. */
  lemma MemoryAnswers(w: World, c: nat)
    requires c < |w.callers| && w.callers[c].pc.ReadingMemory? && w.callers[c].process in w.memory
    requires var e := w.memory[w.callers[c].process];
             w.now < e.expiresAt && !Differ(e.hash, w.callers[c].hash)
    ensures var w' := Next(w, ReadMemory(c));
            OnlyCaller(w, w', c) && w'.receipt == w.receipt && w'.memory == w.memory
            && w'.callers[c].pc == Returned(w.memory[w.callers[c].process].response)
  {
  }

  /** Without such an answer the call goes on to the receipt, and the receipt will expire a time to live from now. */
  lemma NoMemoryLoads(w: World, c: nat)
    requires c < |w.callers| && w.callers[c].pc.ReadingMemory?
    requires w.callers[c].process in w.memory ==> w.memory[w.callers[c].process].expiresAt <= w.now
    ensures var w' := Next(w, ReadMemory(c));
            OnlyCaller(w, w', c) && w'.receipt == w.receipt && w'.callers[c].pc.Loading?
            && w'.callers[c].expiresAt == w.now + w.callers[c].ttl && w.callers[c].process !in w'.memory
  {
  }

  /** The action is one of caller c, at this place of it. */
  predicate AtMemory(w: World, a: Action, c: nat)
    requires c < |w.callers|
  {
    a == ReadMemory(c) && w.callers[c].pc.ReadingMemory? && w.callers[c].process in w.memory
    && w.now < w.memory[w.callers[c].process].expiresAt
  }

  /** A caller is refused exactly when its request hash differs from that of an answer it finds, or when it waits and
      its attempts have run out, or the receipt has gone or expired. */
  lemma RefusedExactly(w: World, a: Action, c: nat)
    requires c < |w.callers| && !w.callers[c].pc.Refused?
    ensures |Next(w, a).callers| == |w.callers|
    ensures Next(w, a).callers[c].pc.Refused? <==>
              (AtMemory(w, a, c) && Differ(w.memory[w.callers[c].process].hash, w.callers[c].hash))
              || (LooksForAnswer(w, a) && a.c == c && Answers(w) && Differ(w.receipt.value.hash, w.callers[c].hash))
              || (a == Poll(c) && w.callers[c].pc.Waiting?
                  && (w.callers[c].pc.left == 0 || (!Answers(w) && !IsPending(w))))
  {
    if !a.Tick? && !a.ProcessDies? && a.c < |w.callers| {
      StepRefuses(w, a, c);
    }
  }

  lemma StepRefuses(w: World, a: Action, c: nat)
    requires c < |w.callers| && !w.callers[c].pc.Refused? && !a.Tick? && !a.ProcessDies? && a.c < |w.callers|
    ensures |CallerStep(w, a).callers| == |w.callers|
    ensures CallerStep(w, a).callers[c].pc.Refused? <==>
              (AtMemory(w, a, c) && Differ(w.memory[w.callers[c].process].hash, w.callers[c].hash))
              || (LooksForAnswer(w, a) && a.c == c && Answers(w) && Differ(w.receipt.value.hash, w.callers[c].hash))
              || (a == Poll(c) && w.callers[c].pc.Waiting?
                  && (w.callers[c].pc.left == 0 || (!Answers(w) && !IsPending(w))))
  {
  }

  /** A receipt that is there but does not answer: a pending one has the caller wait for eight polls, an expired one is
      to be deleted; without a receipt the caller creates one, and a lost race has it wait as well. */
  lemma NoAnswerLeadsOn(w: World, c: nat)
    requires c < |w.callers| && !Answers(w)
    ensures w.callers[c].pc.Loading? ==>
              Next(w, LoadReceipt(c)) == At(w, c, if w.receipt.None? then Creating
                                                  else if IsPending(w) then Waiting(8) else DroppingStale)
    ensures w.callers[c].pc.LoadingRaced? ==> Next(w, LoadRaced(c)) == At(w, c, Waiting(8))
    ensures w.callers[c].pc.Creating? && w.receipt.Some? ==> Next(w, CreateReceipt(c)) == At(w, c, LoadingRaced)
  {
  }

  /** Polls of a receipt that stays pending: the first eight find it so, the ninth gives up. */
  function Polls(w: World, c: nat, n: nat): World {
    if n == 0 then w else Next(Polls(w, c, n - 1), Poll(c))
  }

  lemma {:induction false} WaitRunsOut(w: World, c: nat, n: nat)
    requires c < |w.callers| && w.callers[c].pc == Waiting(8) && IsPending(w) && n <= 9
    ensures Polls(w, c, n) == At(w, c, if n <= 8 then Waiting(8 - n) else Refused)
  {
    if n > 0 {
      WaitRunsOut(w, c, n - 1);
      PollPending(At(w, c, Waiting(9 - n)), c);
    } else {
      assert w.callers[c := w.callers[c]] == w.callers;
    }
  }

  lemma PollPending(w: World, c: nat)
    requires c < |w.callers| && w.callers[c].pc.Waiting? && IsPending(w)
    ensures var left := w.callers[c].pc.left;
            Next(w, Poll(c)) == At(w, c, if left == 0 then Refused else Waiting(left - 1))
  {
  }

  /** What the receipt keeps of a result. */
  predicate Keeps(result: Response, stored: Response) {
    match result
    case Undefined => stored == Data("null")
    case Data(_) => stored == result
  }

  /** The call that creates the receipt runs fn, completes the receipt, and returns the result. */
  lemma OwnerReturns(w: World, c: nat, result: Response)
    requires c < |w.callers| && w.callers[c].pc.Creating? && w.receipt.None?
    ensures var caller := w.callers[c];
            var inside := Next(w, CreateReceipt(c));
            var done := Next(Next(Next(inside, FnReturns(c, result)), UpdateReceipt(c)), Publish(c));
            inside.callers == w.callers[c := caller.(pc := InFn)]
            && inside.receipt == Some(Receipt(false, caller.hash, Undefined, caller.expiresAt, c))
            && inside.memory == w.memory && inside.successes == w.successes
            && done.callers == w.callers[c := caller.(pc := Returned(result))]
            && done.receipt.Some? && done.receipt.value.completed && done.receipt.value.hash == caller.hash
            && Keeps(result, done.receipt.value.response) && done.receipt.value.expiresAt == caller.expiresAt
            && done.memory == w.memory[caller.process := Entry(result, caller.hash, w.now + caller.ttl)]
            && done.successes == w.successes + [(c, result)]
  {
    var caller := w.callers[c];
    var pending := Receipt(false, caller.hash, Undefined, caller.expiresAt, c);
    var inside := Next(w, CreateReceipt(c));
    assert inside == At(w, c, InFn).(receipt := Some(pending));
    OwnerCompletes(inside, c, result, pending);
    assert inside.callers[c := caller.(pc := Returned(result))] == w.callers[c := caller.(pc := Returned(result))];
  }

  lemma OwnerCompletes(w: World, c: nat, result: Response, pending: Receipt)
    requires c < |w.callers| && w.callers[c].pc.InFn? && w.receipt == Some(pending)
    ensures var caller := w.callers[c];
            var done := Next(Next(Next(w, FnReturns(c, result)), UpdateReceipt(c)), Publish(c));
            done.callers == w.callers[c := caller.(pc := Returned(result))]
            && done.receipt.Some? && done.receipt.value.completed && done.receipt.value.hash == caller.hash
            && Keeps(result, done.receipt.value.response) && done.receipt.value.expiresAt == caller.expiresAt
            && done.memory == w.memory[caller.process := Entry(result, caller.hash, w.now + caller.ttl)]
            && done.successes == w.successes + [(c, result)]
  {
    var returned := Next(w, FnReturns(c, result));
    ReturnsAs(w, c, result);
    var updated := Next(returned, UpdateReceipt(c));
    assert updated == At(returned, c, Publishing(result, w.callers[c].hash)).(
                        receipt := Some(Completed(pending, returned.callers[c], result)));
  }

  /** When fn throws, or its result cannot be recorded, the receipt is deleted and the call throws. */
  lemma FailureDeletesReceipt(w: World, c: nat, a: Action)
    requires c < |w.callers|
    requires (a == FnThrows(c) && w.callers[c].pc.InFn?)
             || (a in {UpdateFails(c), UpdateLost(c)} && w.callers[c].pc.Updating?)
    ensures var w' := Next(Next(w, a), DeleteReceipt(c, true));
            OnlyCaller(w, w', c) && w'.memory == w.memory && w'.receipt == None && w'.callers[c].pc.Threw?
  {
    assert Next(w, a).callers == w.callers[c := w.callers[c].(pc := Cleaning)];
  }

  /** A deletion takes whatever receipt there is by then, and one that fails takes none; the call goes on alike. */
  lemma DeletionsExactly(w: World, c: nat, ok: bool)
    requires c < |w.callers|
    ensures w.callers[c].pc.DroppingStale? ==>
              var w' := Next(w, DropStale(c, ok));
              OnlyCaller(w, w', c) && w'.memory == w.memory && w'.callers[c].pc.Creating?
              && (ok ==> w'.receipt.None?) && (!ok ==> w'.receipt == w.receipt)
    ensures w.callers[c].pc.Cleaning? ==>
              var w' := Next(w, DeleteReceipt(c, ok));
              OnlyCaller(w, w', c) && w'.memory == w.memory && w'.callers[c].pc.Threw?
              && (ok ==> w'.receipt.None?) && (!ok ==> w'.receipt == w.receipt)
  {
  }

  /** A statement whose reply is lost leaves the receipt that it leaves otherwise, and its caller goes another way. */
  lemma LostCommits(w: World, c: nat)
    requires c < |w.callers| && (w.callers[c].pc.Creating? || w.callers[c].pc.Updating?)
    ensures Next(w, CreateLost(c)).receipt == Next(w, CreateReceipt(c)).receipt
    ensures Next(w, UpdateLost(c)).receipt == Next(w, UpdateReceipt(c)).receipt
    ensures OnlyCaller(w, Next(w, CreateLost(c)), c) && OnlyCaller(w, Next(w, UpdateLost(c)), c)
  {
    LostCreation(w, c);
    LostUpdate(w, c);
    hide Next;
  }

  lemma LostCreation(w: World, c: nat)
    requires c < |w.callers| && (w.callers[c].pc.Creating? || w.callers[c].pc.Updating?)
    ensures Next(w, CreateLost(c)).receipt == Next(w, CreateReceipt(c)).receipt
    ensures OnlyCaller(w, Next(w, CreateLost(c)), c)
  {
  }

  lemma LostUpdate(w: World, c: nat)
    requires c < |w.callers| && (w.callers[c].pc.Creating? || w.callers[c].pc.Updating?)
    ensures Next(w, UpdateLost(c)).receipt == Next(w, UpdateReceipt(c)).receipt
    ensures OnlyCaller(w, Next(w, UpdateLost(c)), c)
  {
  }

  /** A caller throws exactly when its process dies before it is finished, when it has cleaned up, or when a query of it
      fails: to load, to create, or to poll. */
  lemma ThrowsExactly(w: World, a: Action, c: nat)
    requires c < |w.callers| && !w.callers[c].pc.Threw?
    ensures |Next(w, a).callers| == |w.callers|
    ensures Next(w, a).callers[c].pc.Threw? <==>
              var pc := w.callers[c].pc;
              (a == ProcessDies(w.callers[c].process) && !pc.Returned? && !pc.Refused?)
              || (a in {DeleteReceipt(c, true), DeleteReceipt(c, false)} && pc.Cleaning?)
              || (a == QueryFails(c) && (pc.Loading? || pc.Creating? || pc.LoadingRaced? || pc.Waiting?))
              || (a == CreateLost(c) && pc.Creating? && w.receipt.None?)
  {
    if !a.Tick? && !a.ProcessDies? && a.c < |w.callers| {
      StepThrows(w, a, c);
    }
  }

  lemma StepThrows(w: World, a: Action, c: nat)
    requires c < |w.callers| && !w.callers[c].pc.Threw? && !a.Tick? && !a.ProcessDies? && a.c < |w.callers|
    ensures |CallerStep(w, a).callers| == |w.callers|
    ensures CallerStep(w, a).callers[c].pc.Threw? <==>
              var pc := w.callers[c].pc;
              (a in {DeleteReceipt(c, true), DeleteReceipt(c, false)} && pc.Cleaning?)
              || (a == QueryFails(c) && (pc.Loading? || pc.Creating? || pc.LoadingRaced? || pc.Waiting?))
              || (a == CreateLost(c) && pc.Creating? && w.receipt.None?)
  {
  }
}
