/** idempotency.util.ts: callers in several processes racing to run fn once per (shop, scope, key). */
module Idempotency {
  import opened Options

  /** What fn returns: undefined or JSON data, given by its text. */
  datatype Response = Undefined | Data(json: string)

  /** JSON.parse(JSON.stringify(result ?? null)): what a replay of the stored response returns. */
  function Stored(r: Response): Response {
    if r.Undefined? then Data("null") else r
  }

  /** The row with the unique (shop, scope, key); owner is the caller that inserted it. */
  datatype Receipt = Receipt(completed: bool, hash: Option<string>, response: Response, expiresAt: int, owner: nat)

  datatype Entry = Entry(response: Response, hash: Option<string>, expiresAt: int)

  /** Where a caller is in withClientIdempotency. */
  datatype Pc =
    | ReadingMemory
    | Loading
    | DroppingStale
    | Creating
    | LoadingRaced
    | Waiting(left: nat)
    | InFn
    | Updating(result: Response)
    | Cleaning
    | Publishing(value: Response, stamp: Option<string>)
    | Returned(value: Response)
    | Refused
    | Threw

  /** expiresAt is fixed when the call starts. */
  datatype Caller = Caller(process: nat, hash: Option<string>, ttl: int, expiresAt: int, pc: Pc)

  /** The clock, the callers, the receipt row, each process's memory cache, and the executions of fn that completed. */
  datatype World = World(
    now: int, callers: seq<Caller>, receipt: Option<Receipt>, memory: map<nat, Entry>, successes: seq<(nat, Response)>)

  datatype Action =
    | Tick(elapsed: nat)
    | ProcessDies(process: nat)
    | ReadMemory(c: nat)
    | LoadReceipt(c: nat)
    | DropStale(c: nat, ok: bool)
    | CreateReceipt(c: nat)
    | CreateLost(c: nat)
    | LoadRaced(c: nat)
    | Poll(c: nat)
    | FnReturns(c: nat, result: Response)
    | FnThrows(c: nat)
    | UpdateReceipt(c: nat)
    | UpdateFails(c: nat)
    | UpdateLost(c: nat)
    | DeleteReceipt(c: nat, ok: bool)
    | Publish(c: nat)
    | QueryFails(c: nat)

  const ATTEMPTS := 8

  /** assertRequestHashMatch does not throw: one side is absent or empty, or they are equal. */
  predicate HashesMatch(stored: Option<string>, incoming: Option<string>) {
    stored.None? || incoming.None? || stored.value == "" || incoming.value == "" || stored == incoming
  }

  function At(w: World, c: nat, pc: Pc): World
    requires c < |w.callers|
  {
    w.(callers := w.callers[c := w.callers[c].(pc := pc)])
  }

  /** A caller that has found a completed receipt replays it or refuses. */
  function Replay(w: World, c: nat, r: Receipt): World
    requires c < |w.callers|
  {
    At(w, c, if HashesMatch(r.hash, w.callers[c].hash) then Publishing(r.response, r.hash) else Refused)
  }

  predicate Finished(pc: Pc) {
    pc.Returned? || pc.Refused? || pc.Threw?
  }

  /** receiptStillValid, negated. */
  predicate Expired(w: World, r: Receipt) {
    r.expiresAt <= w.now
  }

  function Next(w: World, a: Action): World {
    match a
    case Tick(elapsed) => w.(now := w.now + elapsed)
    case ProcessDies(p) =>
      w.(memory := w.memory - {p},
         callers := seq(|w.callers|, i requires 0 <= i < |w.callers| =>
           if w.callers[i].process == p && !Finished(w.callers[i].pc) then w.callers[i].(pc := Threw)
               else w.callers[i]))
    case _ => if a.c < |w.callers| then CallerStep(w, a) else w
  }

  /** The receipt after the update to COMPLETED, which keeps its owner. */
  function Completed(r: Receipt, caller: Caller, result: Response): Receipt {
    Receipt(true, caller.hash, Stored(result), caller.expiresAt, r.owner)
  }

  /** A step of one caller; an action that does not fit where the caller is does nothing. A receipt found expired is
      deleted by its key in a statement of its own, whatever the row is by then. A statement that is Lost commits, and
      its caller sees an error all the same. */
  function CallerStep(w: World, a: Action): World
    requires !a.Tick? && !a.ProcessDies? && a.c < |w.callers|
  {
    var caller := w.callers[a.c];
    match (a, caller.pc)
    case (ReadMemory(c), ReadingMemory) =>
      var started := w.(callers := w.callers[c := caller.(expiresAt := w.now + caller.ttl)]);
      if caller.process !in w.memory then At(started, c, Loading)
      else
        var e := w.memory[caller.process];
        if e.expiresAt <= w.now then At(started, c, Loading).(memory := w.memory - {caller.process})
        else At(started, c, if HashesMatch(e.hash, caller.hash) then Returned(e.response) else Refused)
    case (LoadReceipt(c), Loading) =>
      if w.receipt.None? then At(w, c, Creating)
      else if Expired(w, w.receipt.value) then At(w, c, DroppingStale)
      else if w.receipt.value.completed then Replay(w, c, w.receipt.value)
      else At(w, c, Waiting(ATTEMPTS))
    case (DropStale(c, ok), DroppingStale) => At(w, c, Creating).(receipt := if ok then None else w.receipt)
    case (CreateReceipt(c), Creating) =>
      if w.receipt.Some? then At(w, c, LoadingRaced)
      else At(w, c, InFn).(receipt := Some(Receipt(false, caller.hash, Undefined, caller.expiresAt, c)))
    case (CreateLost(c), Creating) =>
      if w.receipt.Some? then At(w, c, LoadingRaced)
      else At(w, c, Threw).(receipt := Some(Receipt(false, caller.hash, Undefined, caller.expiresAt, c)))
    case (LoadRaced(c), LoadingRaced) =>
      if w.receipt.Some? && w.receipt.value.completed && !Expired(w, w.receipt.value) then Replay(w, c, w.receipt.value)
      else At(w, c, Waiting(ATTEMPTS))
    case (Poll(c), Waiting(left)) =>
      if left == 0 || w.receipt.None? || Expired(w, w.receipt.value) then At(w, c, Refused)
      else if w.receipt.value.completed then Replay(w, c, w.receipt.value)
      else At(w, c, Waiting(left - 1))
    case (FnReturns(c, result), InFn) => At(w, c, Updating(result)).(successes := w.successes + [(c, result)])
    case (FnThrows(c), InFn) => At(w, c, Cleaning)
    case (UpdateReceipt(c), Updating(result)) =>
      if w.receipt.None? then At(w, c, Cleaning)
      else At(w, c, Publishing(result, caller.hash)).(receipt := Some(Completed(w.receipt.value, caller, result)))
    case (UpdateFails(c), Updating(_)) => At(w, c, Cleaning)
    case (UpdateLost(c), Updating(result)) =>
      if w.receipt.None? then At(w, c, Cleaning)
      else At(w, c, Cleaning).(receipt := Some(Completed(w.receipt.value, caller, result)))
    case (DeleteReceipt(c, ok), Cleaning) => At(w, c, Threw).(receipt := if ok then None else w.receipt)
    case (Publish(c), Publishing(value, stamp)) =>
      At(w, c, Returned(value)).(memory := w.memory[caller.process := Entry(value, stamp, w.now + caller.ttl)])
    case (QueryFails(c), Loading) => At(w, c, Threw)
    case (QueryFails(c), Creating) => At(w, c, Threw)
    case (QueryFails(c), LoadingRaced) => At(w, c, Threw)
    case (QueryFails(c), Waiting(_)) => At(w, c, Threw)
    case _ => w
  }

  /** The caller is running fn, or has run it and is not done with its receipt. */
  predicate Busy(pc: Pc) {
    pc.InFn? || pc.Updating? || pc.Cleaning?
  }

  /** The two deletions that may take a receipt from under an execution: that of an expired one, once fn has completed
      or is under way, and that after an update to COMPLETED that failed or whose reply was lost. */
  ghost predicate Safe(w: World, a: Action) {
    match a
    case DropStale(c, true) =>
      c < |w.callers| && w.callers[c].pc.DroppingStale? ==>
        w.successes == [] && forall d | 0 <= d < |w.callers| :: !Busy(w.callers[d].pc)
    case DeleteReceipt(c, true) => c < |w.callers| && w.callers[c].pc.Cleaning? ==> w.successes == []
    case _ => true
  }

  // ---------- The invariant ----------

  /** Some execution completed and its receipt says so. */
  predicate Answered(w: World) {
    |w.successes| == 1 && w.receipt.Some? && w.receipt.value.completed
  }

  predicate IsAnswer(w: World, value: Response, stamp: Option<string>) {
    Answered(w) && w.successes[0].0 < |w.callers|
    && (value == w.successes[0].1 || value == Stored(w.successes[0].1)) && stamp == w.callers[w.successes[0].0].hash
  }

  /** The caller owns the pending receipt. */
  predicate Holds(w: World, c: nat) {
    w.receipt.Some? && !w.receipt.value.completed && w.receipt.value.owner == c
  }

  ghost predicate CallerInv(w: World, c: nat)
    requires c < |w.callers|
  {
    match w.callers[c].pc
    case InFn => Holds(w, c) && w.successes == []
    case Cleaning =>
      w.receipt.Some? && w.receipt.value.owner == c && (w.successes == [] || w.successes[0].0 == c)
    case Updating(result) => Holds(w, c) && w.successes == [(c, result)]
    case Publishing(value, stamp) => IsAnswer(w, value, stamp) && HashesMatch(stamp, w.callers[c].hash)
    case Returned(value) => exists stamp :: IsAnswer(w, value, stamp) && HashesMatch(stamp, w.callers[c].hash)
    case _ => true
  }

  ghost predicate ReceiptInv(w: World) {
    |w.successes| <= 1
    && (w.successes == [] ==> w.receipt.Some? ==> !w.receipt.value.completed)
    && (w.successes != [] ==>
          w.successes[0].0 < |w.callers| && w.receipt.Some? && w.receipt.value.owner == w.successes[0].0
          && (w.receipt.value.completed ==> IsAnswer(w, w.receipt.value.response, w.receipt.value.hash)))
  }

  ghost predicate Inv(w: World) {
    ReceiptInv(w)
    && (forall c | 0 <= c < |w.callers| :: CallerInv(w, c))
    && (forall p | p in w.memory :: IsAnswer(w, w.memory[p].response, w.memory[p].hash))
  }

  /** A step that only moves one caller, to a place that asks nothing of the world. */
  lemma MoveKeeps(w: World, c: nat, pc: Pc)
    requires Inv(w) && c < |w.callers|
    requires pc.Loading? || pc.DroppingStale? || pc.Creating? || pc.LoadingRaced? || pc.Waiting? || pc.Refused?
        || pc.Threw?
    ensures Inv(At(w, c, pc))
  {
    SameHashesKeep(w, At(w, c, pc));
    forall d | 0 <= d < |w.callers| ensures CallerInv(At(w, c, pc), d) {
      assert CallerInv(w, d);
      CallerMoves(w, At(w, c, pc), d, c);
    }
  }

  lemma SameHashesKeep(w: World, w': World)
    requires |w'.callers| == |w.callers| && forall i | 0 <= i < |w.callers| :: w'.callers[i].hash == w.callers[i].hash
    requires w'.receipt == w.receipt && w'.successes == w.successes
    ensures forall value, stamp :: IsAnswer(w, value, stamp) <==> IsAnswer(w', value, stamp)
    ensures ReceiptInv(w) ==> ReceiptInv(w')
  {
  }

  lemma CallerMoves(w: World, w': World, d: nat, c: nat)
    requires |w'.callers| == |w.callers| && forall i | 0 <= i < |w.callers| :: w'.callers[i].hash == w.callers[i].hash
    requires w'.receipt == w.receipt && w'.successes == w.successes
    requires d < |w.callers| && CallerInv(w, d)
    requires d != c ==> w'.callers[d].pc == w.callers[d].pc
    ensures d != c ==> CallerInv(w', d)
  {
    SameHashesKeep(w, w');
  }

  lemma ReplayKeeps(w: World, c: nat)
    requires Inv(w) && c < |w.callers| && w.receipt.Some? && w.receipt.value.completed
    ensures Inv(Replay(w, c, w.receipt.value))
  {
    var w' := Replay(w, c, w.receipt.value);
    SameHashesKeep(w, w');
    forall d | 0 <= d < |w.callers| ensures CallerInv(w', d) {
      assert CallerInv(w, d);
      CallerMoves(w, w', d, c);
    }
  }

  lemma ReadMemoryKeeps(w: World, c: nat)
    requires Inv(w) && c < |w.callers| && w.callers[c].pc.ReadingMemory?
    ensures Inv(Next(w, ReadMemory(c)))
  {
    var w' := Next(w, ReadMemory(c));
    SameHashesKeep(w, w');
    forall d | 0 <= d < |w.callers| ensures CallerInv(w', d) {
      assert CallerInv(w, d);
      CallerMoves(w, w', d, c);
      if d == c && w'.callers[c].pc.Returned? {
        assert IsAnswer(w', w'.callers[c].pc.value, w.memory[w.callers[c].process].hash);
      }
    }
  }

  lemma CreateKeeps(w: World, c: nat)
    requires Inv(w) && c < |w.callers| && w.callers[c].pc.Creating? && w.receipt.None?
    ensures Inv(Next(w, CreateReceipt(c)))
  {
    var w' := Next(w, CreateReceipt(c));
    forall d | 0 <= d < |w.callers| ensures CallerInv(w', d) {
      assert CallerInv(w, d);
    }
  }

  lemma FnReturnsKeeps(w: World, c: nat, result: Response)
    requires Inv(w) && c < |w.callers| && w.callers[c].pc.InFn?
    ensures Inv(Next(w, FnReturns(c, result)))
  {
    var w' := Next(w, FnReturns(c, result));
    assert CallerInv(w, c);
    forall d | 0 <= d < |w.callers| ensures CallerInv(w', d) {
      assert CallerInv(w, d);
    }
  }

  lemma CleaningKeeps(w: World, c: nat)
    requires Inv(w) && c < |w.callers| && (w.callers[c].pc.InFn? || w.callers[c].pc.Updating?)
    ensures Inv(At(w, c, Cleaning))
  {
    var w' := At(w, c, Cleaning);
    SameHashesKeep(w, w');
    forall d | 0 <= d < |w.callers| ensures CallerInv(w', d) {
      assert CallerInv(w, d);
      CallerMoves(w, w', d, c);
    }
  }

  lemma UpdateKeeps(w: World, c: nat)
    requires Inv(w) && c < |w.callers| && w.callers[c].pc.Updating?
    ensures Inv(Next(w, UpdateReceipt(c)))
  {
    var w' := Next(w, UpdateReceipt(c));
    assert CallerInv(w, c);
    forall d | 0 <= d < |w.callers| ensures CallerInv(w', d) {
      assert CallerInv(w, d);
    }
  }

  lemma UpdateLostKeeps(w: World, c: nat)
    requires Inv(w) && c < |w.callers| && w.callers[c].pc.Updating?
    ensures Inv(Next(w, UpdateLost(c)))
  {
    var w' := Next(w, UpdateLost(c));
    assert CallerInv(w, c);
    forall d | 0 <= d < |w.callers| ensures CallerInv(w', d) {
      assert CallerInv(w, d);
    }
  }

  lemma CreateLostKeeps(w: World, c: nat)
    requires Inv(w) && c < |w.callers| && w.callers[c].pc.Creating? && w.receipt.None?
    ensures Inv(Next(w, CreateLost(c)))
  {
    var w' := Next(w, CreateLost(c));
    forall d | 0 <= d < |w.callers| ensures CallerInv(w', d) {
      assert CallerInv(w, d);
    }
  }

  lemma DeleteKeepsExactly(w: World, c: nat, ok: bool)
    requires Inv(w) && c < |w.callers| && w.callers[c].pc.Cleaning?
    ensures Inv(Next(w, DeleteReceipt(c, ok))) <==> !ok || w.successes == []
  {
    var w' := Next(w, DeleteReceipt(c, ok));
    assert CallerInv(w, c);
    if !ok || w.successes == [] {
      forall d | 0 <= d < |w.callers| ensures CallerInv(w', d) {
        assert CallerInv(w, d);
      }
    }
  }

  lemma DropKeepsExactly(w: World, c: nat)
    requires Inv(w) && c < |w.callers| && w.callers[c].pc.DroppingStale?
    ensures Inv(Next(w, DropStale(c, true))) <==> Safe(w, DropStale(c, true))
  {
    var w' := Next(w, DropStale(c, true));
    if Safe(w, DropStale(c, true)) {
      forall d | 0 <= d < |w.callers| ensures CallerInv(w', d) {
        assert CallerInv(w, d);
      }
    } else if w.successes == [] {
      var d :| 0 <= d < |w.callers| && Busy(w.callers[d].pc);
      assert !CallerInv(w', d);
    }
  }

  lemma PublishKeeps(w: World, c: nat)
    requires Inv(w) && c < |w.callers| && w.callers[c].pc.Publishing?
    ensures Inv(Next(w, Publish(c)))
  {
    var w' := Next(w, Publish(c));
    SameHashesKeep(w, w');
    assert CallerInv(w, c);
    forall d | 0 <= d < |w.callers| ensures CallerInv(w', d) {
      assert CallerInv(w, d);
      CallerMoves(w, w', d, c);
      if d == c {
        assert IsAnswer(w', w.callers[c].pc.value, w.callers[c].pc.stamp);
      }
    }
  }

  lemma ProcessKeeps(w: World, a: Action)
    requires Inv(w) && (a.Tick? || a.ProcessDies?)
    ensures Inv(Next(w, a))
  {
    var w' := Next(w, a);
    SameHashesKeep(w, w');
    forall d | 0 <= d < |w.callers| ensures CallerInv(w', d) {
      assert CallerInv(w, d);
      if w'.callers[d].pc == w.callers[d].pc {
        CallerMoves(w, w', d, |w.callers|);
      }
    }
  }

  /** From the invariant, the safe steps and no others keep it. */
  lemma NextKeepsExactly(w: World, a: Action)
    requires Inv(w)
    ensures Inv(Next(w, a)) <==> Safe(w, a)
  {
    if a.Tick? || a.ProcessDies? {
      ProcessKeeps(w, a);
    } else if a.c < |w.callers| {
      CallerStepKeepsExactly(w, a);
    }
  }

  lemma CallerStepKeepsExactly(w: World, a: Action)
    requires Inv(w) && !a.Tick? && !a.ProcessDies? && a.c < |w.callers|
    ensures Inv(CallerStep(w, a)) <==> Safe(w, a)
  {
    var c := a.c;
    assert CallerInv(w, c);
    match (a, w.callers[c].pc) {
      case (ReadMemory(_), ReadingMemory) => ReadMemoryKeeps(w, c);
      case (LoadReceipt(_), Loading) =>
        if w.receipt.None? {
          MoveKeeps(w, c, Creating);
        } else if Expired(w, w.receipt.value) {
          MoveKeeps(w, c, DroppingStale);
        } else if w.receipt.value.completed {
          ReplayKeeps(w, c);
        } else {
          MoveKeeps(w, c, Waiting(ATTEMPTS));
        }
      case (DropStale(_, ok), DroppingStale) =>
        if ok {
          DropKeepsExactly(w, c);
        } else {
          MoveKeeps(w, c, Creating);
        }
      case (CreateReceipt(_), Creating) =>
        if w.receipt.Some? {
          MoveKeeps(w, c, LoadingRaced);
        } else {
          CreateKeeps(w, c);
        }
      case (CreateLost(_), Creating) =>
        if w.receipt.Some? {
          MoveKeeps(w, c, LoadingRaced);
        } else {
          CreateLostKeeps(w, c);
        }
      case (LoadRaced(_), LoadingRaced) =>
        if w.receipt.Some? && w.receipt.value.completed && !Expired(w, w.receipt.value) {
          ReplayKeeps(w, c);
        } else {
          MoveKeeps(w, c, Waiting(ATTEMPTS));
        }
      case (Poll(_), Waiting(left)) =>
        if left == 0 || w.receipt.None? || Expired(w, w.receipt.value) {
          MoveKeeps(w, c, Refused);
        } else if w.receipt.value.completed {
          ReplayKeeps(w, c);
        } else {
          MoveKeeps(w, c, Waiting(left - 1));
        }
      case (FnReturns(_, result), InFn) => FnReturnsKeeps(w, c, result);
      case (FnThrows(_), InFn) => CleaningKeeps(w, c);
      case (UpdateReceipt(_), Updating(_)) => UpdateKeeps(w, c);
      case (UpdateFails(_), Updating(_)) => CleaningKeeps(w, c);
      case (UpdateLost(_), Updating(_)) => UpdateLostKeeps(w, c);
      case (DeleteReceipt(_, ok), Cleaning) => DeleteKeepsExactly(w, c, ok);
      case (Publish(_), Publishing(_, _)) => PublishKeeps(w, c);
      case (QueryFails(_), _) =>
        if w.callers[c].pc.Loading? || w.callers[c].pc.Creating? || w.callers[c].pc.LoadingRaced?
            || w.callers[c].pc.Waiting? {
          MoveKeeps(w, c, Threw);
        }
      case _ =>
    }
  }

  // ---------- Whole runs ----------

  ghost predicate Initial(w: World) {
    w.receipt.None? && w.memory == map[] && w.successes == []
        && forall c | 0 <= c < |w.callers| :: w.callers[c].pc.ReadingMemory?
  }

  function Execute(w: World, actions: seq<Action>): World {
    if actions == [] then w else Next(Execute(w, actions[..|actions| - 1]), actions[|actions| - 1])
  }

  ghost predicate SafeRun(w: World, actions: seq<Action>) {
    forall i | 0 <= i < |actions| :: Safe(Execute(w, actions[..i]), actions[i])
  }

  lemma {:induction false} ExecuteKeeps(w: World, actions: seq<Action>)
    requires Initial(w) && SafeRun(w, actions)
    ensures Inv(Execute(w, actions))
  {
    if actions != [] {
      var front := actions[..|actions| - 1];
      forall i | 0 <= i < |front| ensures Safe(Execute(w, front[..i]), front[i]) {
        assert front[..i] == actions[..i];
      }
      ExecuteKeeps(w, front);
      NextKeepsExactly(Execute(w, front), actions[|actions| - 1]);
    }
  }

  /** For any number of callers and processes and any safe interleaving: at most one caller is inside fn, and fn
      completes at most once. */
  lemma AtMostOnce(w: World, actions: seq<Action>, c: nat, d: nat)
    requires Initial(w) && SafeRun(w, actions)
    ensures var w' := Execute(w, actions);
            |w'.successes| <= 1
            && (c < |w'.callers| && d < |w'.callers| && w'.callers[c].pc.InFn? && w'.callers[d].pc.InFn? ==> c == d)
            && (c < |w'.callers| && w'.callers[c].pc.InFn? ==> w'.successes == [])
  {
    ExecuteKeeps(w, actions);
    var w' := Execute(w, actions);
    if c < |w'.callers| {
      assert CallerInv(w', c);
    }
    if d < |w'.callers| {
      assert CallerInv(w', d);
    }
  }

  /** Every value returned, by whatever path, is the result of the one execution, as stored when that was undefined; and
      a caller whose request hash differs from the executor's never gets a value. */
  lemma OneAnswer(w: World, actions: seq<Action>, c: nat)
    requires Initial(w) && SafeRun(w, actions)
    requires c < |Execute(w, actions).callers| && Execute(w, actions).callers[c].pc.Returned?
    ensures var w' := Execute(w, actions);
            |w'.successes| == 1 && w'.successes[0].0 < |w'.callers|
            && w'.callers[c].pc.value in {w'.successes[0].1, Stored(w'.successes[0].1)}
            && HashesMatch(w'.callers[w'.successes[0].0].hash, w'.callers[c].hash)
  {
    ExecuteKeeps(w, actions);
    assert CallerInv(Execute(w, actions), c);
  }

  // ---------- Runs shorter than the time to live ----------

  /** Nothing that exists expires before the given time. */
  ghost predicate Fresh(w: World, until: int) {
    (w.receipt.Some? ==> until <= w.receipt.value.expiresAt)
    && forall c | 0 <= c < |w.callers| :: FreshCaller(w.now, w.callers[c], until)
  }

  ghost predicate FreshCaller(now: int, c: Caller, until: int) {
    !c.pc.DroppingStale? && until <= now + c.ttl
    && (!c.pc.ReadingMemory? && !Finished(c.pc) ==> until <= c.expiresAt)
  }

  lemma FreshNext(w: World, a: Action, until: int)
    requires Fresh(w, until) && w.now < until
    ensures Fresh(Next(w, a), until)
  {
    var w' := Next(w, a);
    forall d | 0 <= d < |w'.callers| ensures FreshCaller(w'.now, w'.callers[d], until) {
      assert FreshCaller(w.now, w.callers[d], until);
      if !a.Tick? && !a.ProcessDies? && a.c < |w.callers| {
        FreshStep(w, a, until, d);
      }
    }
  }

  lemma FreshStep(w: World, a: Action, until: int, d: nat)
    requires Fresh(w, until) && w.now < until && d < |w.callers|
    requires !a.Tick? && !a.ProcessDies? && a.c < |w.callers|
    ensures |CallerStep(w, a).callers| == |w.callers| && CallerStep(w, a).now == w.now
    ensures FreshCaller(w.now, CallerStep(w, a).callers[d], until)
    ensures CallerStep(w, a).receipt.Some? ==> until <= CallerStep(w, a).receipt.value.expiresAt
  {
    assert FreshCaller(w.now, w.callers[d], until) && FreshCaller(w.now, w.callers[a.c], until);
  }

  lemma NextIsLater(w: World, a: Action)
    ensures w.now <= Next(w, a).now
  {
  }

  lemma {:induction false} ClockRises(w: World, actions: seq<Action>, i: nat)
    requires i <= |actions|
    ensures Execute(w, actions[..i]).now <= Execute(w, actions).now
    decreases |actions|
  {
    if i < |actions| {
      var front := actions[..|actions| - 1];
      ClockRises(w, front, i);
      NextIsLater(Execute(w, front), actions[|actions| - 1]);
      assert front[..i] == actions[..i];
    } else {
      assert actions[..i] == actions;
    }
  }

  lemma {:induction false} StaysFresh(w: World, actions: seq<Action>, until: int)
    requires Fresh(w, until) && Execute(w, actions).now < until
    ensures Fresh(Execute(w, actions), until)
  {
    if actions != [] {
      var front := actions[..|actions| - 1];
      ClockRises(w, actions, |front|);
      StaysFresh(w, front, until);
      FreshNext(Execute(w, front), actions[|actions| - 1], until);
    }
  }

  /** The update to COMPLETED reports an error. */
  predicate UpdateErrs(a: Action) {
    a.UpdateFails? || a.UpdateLost?
  }

  /** No caller is cleaning up after fn completed. */
  ghost predicate NoneUndoes(w: World) {
    forall c | 0 <= c < |w.callers| && w.callers[c].pc.Cleaning? :: w.successes == []
  }

  lemma NoneUndoesStep(w: World, a: Action, d: nat)
    requires Inv(w) && NoneUndoes(w) && !UpdateErrs(a) && d < |w.callers|
    requires !a.Tick? && !a.ProcessDies? && a.c < |w.callers|
    ensures |CallerStep(w, a).callers| == |w.callers|
    ensures CallerStep(w, a).callers[d].pc.Cleaning? ==> CallerStep(w, a).successes == []
  {
    assert CallerInv(w, d) && CallerInv(w, a.c);
  }

  lemma NoneUndoesNext(w: World, a: Action)
    requires Inv(w) && NoneUndoes(w) && !UpdateErrs(a)
    ensures NoneUndoes(Next(w, a))
  {
    var w' := Next(w, a);
    forall d | 0 <= d < |w'.callers| && w'.callers[d].pc.Cleaning? ensures w'.successes == [] {
      assert CallerInv(w, d);
      if !a.Tick? && !a.ProcessDies? && a.c < |w.callers| {
        NoneUndoesStep(w, a, d);
      }
    }
  }

  lemma SafeRunGrows(w: World, front: seq<Action>, actions: seq<Action>)
    requires actions != [] && front == actions[..|actions| - 1]
    requires SafeRun(w, front) && Safe(Execute(w, front), actions[|actions| - 1])
    ensures SafeRun(w, actions)
  {
    forall i | 0 <= i < |actions| ensures Safe(Execute(w, actions[..i]), actions[i]) {
      if i < |front| {
        assert front[..i] == actions[..i] && front[i] == actions[i];
      }
    }
  }

  lemma FreshIsSafe(w: World, a: Action, until: int)
    requires Fresh(w, until) && NoneUndoes(w)
    ensures Safe(w, a)
  {
    if a.DropStale? && a.c < |w.callers| {
      assert FreshCaller(w.now, w.callers[a.c], until);
    }
  }

  lemma {:induction false} SafeWithinTtlFrom(w: World, actions: seq<Action>, until: int)
    requires Initial(w) && Fresh(w, until) && Execute(w, actions).now < until
    requires forall i | 0 <= i < |actions| :: !UpdateErrs(actions[i])
    ensures SafeRun(w, actions) && NoneUndoes(Execute(w, actions))
  {
    if actions != [] {
      var front, last := actions[..|actions| - 1], actions[|actions| - 1];
      ClockRises(w, actions, |front|);
      SafeWithinTtlFrom(w, front, until);
      StaysFresh(w, front, until);
      FreshIsSafe(Execute(w, front), last, until);
      SafeRunGrows(w, front, actions);
      ExecuteKeeps(w, front);
      NoneUndoesNext(Execute(w, front), last);
    }
  }

  /** Whatever else happens, a run is safe when it is shorter than every caller's time to live and no update to
      COMPLETED reports an error. */
  lemma SafeWithinTtl(w: World, actions: seq<Action>)
    requires Initial(w) && forall i | 0 <= i < |actions| :: !UpdateErrs(actions[i])
    requires forall c | 0 <= c < |w.callers| :: Execute(w, actions).now < w.now + w.callers[c].ttl
    ensures SafeRun(w, actions)
  {
    SafeWithinTtlFrom(w, actions, Execute(w, actions).now + 1);
  }

  // ---------- What an unsafe deletion leads to ----------

  /** fn has completed twice, or two callers are inside it. */
  ghost predicate RunsTwice(w: World) {
    |w.successes| > 1
    || exists c, d | 0 <= c < d < |w.callers| :: w.callers[c].pc.InFn? && w.callers[d].pc.InFn?
  }

  /** The same world with one caller more. */
  function WithCaller(w: World, caller: Caller): World {
    w.(callers := w.callers + [caller])
  }

  /** A caller that has not started, in a process that remembers nothing. */
  predicate Spare(w: World, x: nat) {
    x < |w.callers| && w.callers[x].pc.ReadingMemory? && w.callers[x].process !in w.memory
  }

  lemma ExecuteMore(w: World, actions: seq<Action>, a: Action)
    ensures Execute(w, actions + [a]) == Next(Execute(w, actions), a)
  {
    assert (actions + [a])[..|actions|] == actions;
  }

  lemma ExecuteTwo(w: World, a: Action, b: Action)
    ensures Execute(w, [a, b]) == Next(Next(w, a), b)
  {
    ExecuteMore(w, [], a);
    ExecuteMore(w, [a], b);
    assert [] + [a] == [a] && [a] + [b] == [a, b];
  }

  function Started(w: World, c: nat, pc: Pc): Caller
    requires c < |w.callers|
  {
    w.callers[c].(expiresAt := w.now + w.callers[c].ttl, pc := pc)
  }

  /** A caller reads memory and receipt, and enters fn if there is no receipt. */
  function Looks(w: World, c: nat): World {
    Next(Next(w, ReadMemory(c)), LoadReceipt(c))
  }

  function Enters(w: World, c: nat): World {
    Next(Looks(w, c), CreateReceipt(c))
  }

  lemma LooksAs(w: World, c: nat)
    requires Spare(w, c) && (w.receipt.Some? ==> Expired(w, w.receipt.value))
    ensures Looks(w, c)
         == w.(callers := w.callers[c := Started(w, c, if w.receipt.None? then Creating else DroppingStale)])
  {
    assert Next(w, ReadMemory(c)) == w.(callers := w.callers[c := Started(w, c, Loading)]);
  }

  lemma EntersAs(w: World, c: nat)
    requires Spare(w, c) && w.receipt.None?
    ensures Enters(w, c)
         == w.(callers := w.callers[c := Started(w, c, InFn)],
               receipt := Some(Receipt(false, w.callers[c].hash, Undefined, w.now + w.callers[c].ttl, c)))
  {
    LooksAs(w, c);
  }

  lemma EntersInSteps(w: World, actions: seq<Action>, c: nat)
    ensures Execute(w, actions + [ReadMemory(c)] + [LoadReceipt(c)] + [CreateReceipt(c)])
         == Enters(Execute(w, actions), c)
  {
    ExecuteMore(w, actions, ReadMemory(c));
    ExecuteMore(w, actions + [ReadMemory(c)], LoadReceipt(c));
    ExecuteMore(w, actions + [ReadMemory(c)] + [LoadReceipt(c)], CreateReceipt(c));
  }

  lemma CreatesAs(w: World, c: nat)
    requires c < |w.callers| && w.callers[c].pc.Creating? && w.receipt.None?
    ensures Next(w, CreateReceipt(c))
         == At(w, c, InFn).(receipt := Some(Receipt(false, w.callers[c].hash, Undefined, w.callers[c].expiresAt, c)))
  {
  }

  lemma TwoInside(w: World, c: nat, d: nat)
    requires c < |w.callers| && d < |w.callers| && c != d && w.callers[c].pc.InFn? && w.callers[d].pc.InFn?
    ensures RunsTwice(w)
  {
    assert c < d || d < c;
  }

  /** The receipt of a completed execution is gone: a new caller runs fn again. */
  lemma LostReceiptRunsTwice(w: World, x: nat) returns (more: seq<Action>)
    requires w.receipt.None? && w.successes != [] && Spare(w, x)
    ensures RunsTwice(Execute(w, more))
  {
    EntersAs(w, x);
    EntersInSteps(w, [], x);
    var enter := [] + [ReadMemory(x)] + [LoadReceipt(x)] + [CreateReceipt(x)];
    more := enter + [FnReturns(x, Undefined)];
    ExecuteMore(w, enter, FnReturns(x, Undefined));
  }

  /** The receipt of an execution under way is gone: the caller that deleted it enters fn too, or completes it again. */
  lemma DroppedReceiptRunsTwice(w: World, c: nat) returns (more: seq<Action>)
    requires c < |w.callers| && w.callers[c].pc.Creating? && w.receipt.None?
    requires w.successes != [] || exists d | 0 <= d < |w.callers| :: w.callers[d].pc.InFn?
    ensures RunsTwice(Execute(w, more))
  {
    CreatesAs(w, c);
    ExecuteTwo(w, CreateReceipt(c), FnReturns(c, Undefined));
    ExecuteMore(w, [], CreateReceipt(c));
    if w.successes != [] {
      more := [CreateReceipt(c), FnReturns(c, Undefined)];
    } else {
      var d :| 0 <= d < |w.callers| && w.callers[d].pc.InFn?;
      more := [] + [CreateReceipt(c)];
      TwoInside(Execute(w, more), c, d);
    }
  }

  /** The receipt of a caller whose fn threw is gone: the caller that deleted it enters fn under a new one, the first
      deletes that, and a new caller enters fn as well. */
  lemma CleanedReceiptRunsTwice(w: World, c: nat, d: nat, x: nat) returns (more: seq<Action>)
    requires c < |w.callers| && w.callers[c].pc.Creating? && w.receipt.None?
    requires d < |w.callers| && w.callers[d].pc.Cleaning? && Spare(w, x)
    ensures RunsTwice(Execute(w, more))
  {
    var create := [CreateReceipt(c), DeleteReceipt(d, true)];
    CreatesAs(w, c);
    ExecuteTwo(w, CreateReceipt(c), DeleteReceipt(d, true));
    var w' := Execute(w, create);
    EntersAs(w', x);
    EntersInSteps(w, create, x);
    more := create + [ReadMemory(x)] + [LoadReceipt(x)] + [CreateReceipt(x)];
    TwoInside(Execute(w, more), c, x);
  }

  lemma UnsafeStepRunsTwice(w: World, a: Action, x: nat) returns (more: seq<Action>)
    requires Inv(w) && !Safe(w, a) && Spare(w, x)
    ensures RunsTwice(Execute(Next(w, a), more))
  {
    var w' := Next(w, a);
    if a.DeleteReceipt? {
      more := LostReceiptRunsTwice(w', x);
    } else if w.successes != [] || exists d | 0 <= d < |w.callers| :: w.callers[d].pc.InFn? {
      if d :| 0 <= d < |w.callers| && w.callers[d].pc.InFn? {
        assert w'.callers[d].pc.InFn?;
      }
      more := DroppedReceiptRunsTwice(w', a.c);
    } else {
      var d :| 0 <= d < |w.callers| && Busy(w.callers[d].pc);
      assert CallerInv(w, d);
      more := CleanedReceiptRunsTwice(w', a.c, d, x);
    }
  }

  lemma {:induction false} FreshProcess(processes: set<nat>) returns (p: nat)
    ensures forall q | q in processes :: q < p
  {
    if processes == {} {
      p := 0;
    } else {
      var q :| q in processes;
      var above := FreshProcess(processes - {q});
      p := if q < above then above else q + 1;
      assert forall r | r in processes :: r == q || r in processes - {q};
    }
  }

  lemma CallerJoins(w: World, caller: Caller, a: Action)
    requires Inv(w) && caller.pc.ReadingMemory?
    ensures Inv(WithCaller(w, caller))
    ensures !Safe(w, a) ==> !Safe(WithCaller(w, caller), a)
  {
    var w' := WithCaller(w, caller);
    assert forall i | 0 <= i < |w.callers| :: w'.callers[i] == w.callers[i];
    forall d | 0 <= d < |w'.callers| ensures CallerInv(w', d) {
      if d < |w.callers| {
        assert CallerInv(w, d);
        if w.callers[d].pc.Returned? {
          var stamp :| IsAnswer(w, w.callers[d].pc.value, stamp) && HashesMatch(stamp, w.callers[d].hash);
          assert IsAnswer(w', w.callers[d].pc.value, stamp);
        }
      }
    }
  }

  /** Every unsafe step, from any state the invariant allows and with one caller more that has not started yet, has a
      continuation that completes fn twice or puts two callers inside it. */
  lemma UnsafeRunsTwice(w: World, a: Action) returns (extra: Caller, more: seq<Action>)
    requires Inv(w) && !Safe(w, a)
    ensures extra.pc.ReadingMemory? && Inv(WithCaller(w, extra))
    ensures RunsTwice(Execute(Next(WithCaller(w, extra), a), more))
  {
    var p := FreshProcess(w.memory.Keys);
    extra := Caller(p, None, 1, 0, ReadingMemory);
    CallerJoins(w, extra, a);
    more := UnsafeStepRunsTwice(WithCaller(w, extra), a, |w.callers|);
  }

  // ---------- Runs with an unsafe deletion ----------

  /** Callers of three processes, with a time to live of one. */
  function ThreeCallers(now: int): (w: World)
    ensures Initial(w)
  {
    World(now, [Caller(0, None, 1, 0, ReadingMemory), Caller(1, None, 1, 0, ReadingMemory),
                Caller(2, None, 1, 0, ReadingMemory)], None, map[], [])
  }

  function DropsAndEnters(w: World, c: nat): World {
    Next(Next(w, DropStale(c, true)), CreateReceipt(c))
  }

  lemma DropsAs(w: World, c: nat)
    requires c < |w.callers| && w.callers[c].pc.DroppingStale?
    ensures DropsAndEnters(w, c)
         == At(w, c, InFn).(receipt := Some(Receipt(false, w.callers[c].hash, Undefined, w.callers[c].expiresAt, c)))
  {
    assert Next(w, DropStale(c, true)) == At(w, c, Creating).(receipt := None);
  }

  /** The first caller is still inside fn when its receipt expires: the second deletes it and enters fn as well. */
  lemma ExpiryLetsTwoIn(now: int)
    ensures var entered := Enters(ThreeCallers(now), 0);
            var late := Next(entered, Tick(1));
            var both := DropsAndEnters(Looks(late, 1), 1);
            late.receipt.Some? && Expired(late, late.receipt.value)
            && |both.callers| == 3 && both.callers[0].pc.InFn? && both.callers[1].pc.InFn?
  {
    EntersAs(ThreeCallers(now), 0);
    var late := Next(Enters(ThreeCallers(now), 0), Tick(1));
    LooksAs(late, 1);
    DropsAs(Looks(late, 1), 1);
  }

  /** The first caller enters fn and its process dies; when its receipt has expired, both others find it so. */
  function FoundStale(w: World): World {
    Looks(Looks(Next(Next(Enters(w, 0), ProcessDies(0)), Tick(1)), 1), 2)
  }

  lemma FoundStaleAs(now: int)
    ensures var w := FoundStale(ThreeCallers(now));
            w.now == now + 1 && |w.callers| == 3 && w.callers[0].pc.Threw? && w.callers[1].pc.DroppingStale?
            && w.callers[2].pc.DroppingStale? && w.callers[1].expiresAt == now + 2 && Inv(w)
  {
    var w := ThreeCallers(now);
    EntersAs(w, 0);
    var late := Next(Next(Enters(w, 0), ProcessDies(0)), Tick(1));
    assert late.receipt.Some? && Expired(late, late.receipt.value) && late.memory == map[];
    LooksAs(late, 1);
    LooksAs(Looks(late, 1), 2);
  }

  /** The second deletes the stale receipt and enters fn under a receipt of its own, and that one the third deletes by
      its key, long before it expires. */
  lemma StaleDeleteTakesFreshReceipt(now: int)
    ensures var entered := DropsAndEnters(FoundStale(ThreeCallers(now)), 1);
            var both := DropsAndEnters(entered, 2);
            entered.receipt.Some? && !Expired(entered, entered.receipt.value)
            && |both.callers| == 3 && both.callers[1].pc.InFn? && both.callers[2].pc.InFn?
  {
    FoundStaleAs(now);
    DropsAs(FoundStale(ThreeCallers(now)), 1);
    DropsAs(DropsAndEnters(FoundStale(ThreeCallers(now)), 1), 2);
  }

  lemma ReturnsAs(w: World, c: nat, r: Response)
    requires c < |w.callers| && w.callers[c].pc.InFn?
    ensures Next(w, FnReturns(c, r)) == At(w, c, Updating(r)).(successes := w.successes + [(c, r)])
  {
  }

  /** The update to COMPLETED fails and the receipt is deleted. */
  function LosesReceipt(w: World, c: nat): World {
    Next(Next(w, UpdateFails(c)), DeleteReceipt(c, true))
  }

  lemma LosesAs(w: World, c: nat)
    requires c < |w.callers| && w.callers[c].pc.Updating?
    ensures LosesReceipt(w, c) == At(w, c, Threw).(receipt := None)
  {
    assert Next(w, UpdateFails(c)) == At(w, c, Cleaning);
  }

  /** The first caller's COMPLETED update fails, so its receipt is dropped and the second caller runs fn again. */
  lemma FailedUpdateRunsTwice(now: int, r: Response)
    ensures var lost := LosesReceipt(Next(Enters(ThreeCallers(now), 0), FnReturns(0, r)), 0);
            Next(Enters(lost, 1), FnReturns(1, r)).successes == [(0, r), (1, r)]
  {
    var entered := Enters(ThreeCallers(now), 0);
    EntersAs(ThreeCallers(now), 0);
    ReturnsAs(entered, 0, r);
    LosesAs(Next(entered, FnReturns(0, r)), 0);
    var lost := LosesReceipt(Next(entered, FnReturns(0, r)), 0);
    EntersAs(lost, 1);
    ReturnsAs(Enters(lost, 1), 1, r);
  }

  /** A caller replays a completed receipt. */
  function Replays(w: World, c: nat): World {
    Next(Looks(w, c), Publish(c))
  }

  lemma ReplaysAs(w: World, c: nat)
    requires Spare(w, c) && w.receipt.Some? && w.receipt.value.completed && !Expired(w, w.receipt.value)
    requires HashesMatch(w.receipt.value.hash, w.callers[c].hash)
    ensures var caller, r := w.callers[c], w.receipt.value;
            Replays(w, c) == w.(callers := w.callers[c := Started(w, c, Returned(r.response))],
                                memory := w.memory[caller.process := Entry(r.response, r.hash, w.now + caller.ttl)])
  {
    assert Next(w, ReadMemory(c)) == w.(callers := w.callers[c := Started(w, c, Loading)]);
    assert Looks(w, c) == w.(callers := w.callers[c := Started(w, c, Publishing(w.receipt.value.response,
                                                                               w.receipt.value.hash))]);
  }

  lemma CommitsAs(w: World, c: nat, result: Response)
    requires c < |w.callers| && w.callers[c].pc == Updating(result) && w.receipt.Some?
    ensures Next(w, UpdateLost(c))
         == At(w, c, Cleaning).(receipt := Some(Completed(w.receipt.value, w.callers[c], result)))
  {
  }

  /** The first caller's update commits and its reply is lost. */
  function Committed(now: int, r: Response): World {
    Next(Next(Enters(ThreeCallers(now), 0), FnReturns(0, r)), UpdateLost(0))
  }

  lemma CommittedAs(now: int, r: Response)
    ensures var w := Committed(now, r);
            |w.callers| == 3 && w.callers[0].pc.Cleaning? && w.memory == map[] && w.successes == [(0, r)]
            && Spare(w, 1) && Spare(w, 2)
            && w.callers[1].process != w.callers[2].process
            && w.receipt == Some(Receipt(true, None, Stored(r), w.now + 1, 0))
  {
    var entered := Enters(ThreeCallers(now), 0);
    EntersAs(ThreeCallers(now), 0);
    ReturnsAs(entered, 0, r);
    CommitsAs(Next(entered, FnReturns(0, r)), 0, r);
  }

  /** The second replays the answer, then the first deletes the completed receipt. */
  function Undone(w: World): World {
    Next(Replays(w, 1), DeleteReceipt(0, true))
  }

  lemma UndoneRunsAgain(w: World, r: Response)
    requires |w.callers| == 3 && w.callers[0].pc.Cleaning? && w.memory == map[] && Spare(w, 1) && Spare(w, 2)
    requires w.callers[1].process != w.callers[2].process
    requires w.receipt == Some(Receipt(true, None, Stored(r), w.now + 1, 0))
    ensures var undone := Undone(w);
            |undone.callers| == 3 && undone.callers[1].pc == Returned(Stored(r))
            && Next(Enters(undone, 2), FnReturns(2, r)).successes == w.successes + [(2, r)]
  {
    ReplaysAs(w, 1);
    var undone := Undone(w);
    assert undone == At(Replays(w, 1), 0, Threw).(receipt := None);
    EntersAs(undone, 2);
    ReturnsAs(Enters(undone, 2), 2, r);
  }

  /** After that the third runs fn again. */
  lemma LostReplyUndoesAnAnswer(now: int, r: Response)
    ensures var undone := Undone(Committed(now, r));
            |undone.callers| == 3 && undone.callers[1].pc == Returned(Stored(r))
            && Next(Enters(undone, 2), FnReturns(2, r)).successes == [(0, r), (2, r)]
  {
    CommittedAs(now, r);
    UndoneRunsAgain(Committed(now, r), r);
  }
}
