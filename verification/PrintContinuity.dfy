/** print-continuity.js and hub.js: the staged print worker, under lost replies and crashes. */
module PrintContinuity {
  import opened Options

  // ---------- The durable table ----------

  datatype RowState = Claimed | PrintedPendingAck | FailedPendingAck | Acknowledged

  /** A print job: its id and the canonical text of the whole job. */
  datatype Job = Job(id: string, text: string)

  datatype Row = Row(job: Job, state: RowState, error: Option<string>)

  datatype Staged = Staged(rows: seq<Row>, row: Row) | Refused

  function FindRow(rows: seq<Row>, id: string): (i: Option<nat>)
    ensures i.Some? ==> i.value < |rows| && rows[i.value].job.id == id
    ensures i.None? ==> forall j | 0 <= j < |rows| :: rows[j].job.id != id
  {
    if rows == [] then None
    else
      var front := FindRow(rows[..|rows| - 1], id);
      if front.Some? then front else if rows[|rows| - 1].job.id == id then Some(|rows| - 1) else None
  }

  /** stage: hands back the existing row of the job whatever its state; a job without an id, or one that has changed, is
      refused. */
  function StageJob(rows: seq<Row>, job: Job): Staged {
    var at := FindRow(rows, job.id);
    if job.id == "" then Refused
    else if at.Some? then
      if rows[at.value].job.text != job.text then Refused else Staged(rows, rows[at.value])
    else
      var row := Row(job, Claimed, None);
      Staged(rows + [row], row)
  }

  /** Row i is not acknowledged, and all older rows are. */
  ghost predicate OldestOpen(rows: seq<Row>, i: nat)
    requires i < |rows|
  {
    !rows[i].state.Acknowledged? && forall j | 0 <= j < i :: rows[j].state.Acknowledged?
  }

  /** next: the oldest row that is not acknowledged. */
  function NextRow(rows: seq<Row>): (i: Option<nat>)
    ensures i.Some? ==> i.value < |rows| && OldestOpen(rows, i.value)
    ensures i.None? ==> forall j | 0 <= j < |rows| :: rows[j].state.Acknowledged?
  {
    if rows == [] then None
    else if !rows[0].state.Acknowledged? then Some(0)
    else
      var rest := NextRow(rows[1..]);
      if rest.None? then None else Some(rest.value + 1)
  }

  /** What an UPDATE by job id may do: no row appears, moves or changes its job, and rows of other jobs stay. */
  ghost predicate OnlyRowOf(id: string, before: seq<Row>, after: seq<Row>) {
    |after| == |before|
    && forall i | 0 <= i < |before| ::
         after[i].job == before[i].job && (before[i].job.id != id ==> after[i] == before[i])
  }

  function SetState(rows: seq<Row>, id: string, state: RowState, error: Option<string>): (r: seq<Row>)
    ensures OnlyRowOf(id, rows, r)
    ensures forall i | 0 <= i < |rows| && rows[i].job.id == id :: r[i].state == state && r[i].error == error
  {
    seq(|rows|, i requires 0 <= i < |rows| =>
      if rows[i].job.id == id then Row(rows[i].job, state, error) else rows[i])
  }

  function ErrorOf(rows: seq<Row>, id: string): Option<string> {
    var at := FindRow(rows, id);
    if at.None? then None else rows[at.value].error
  }

  class PrintContinuityStore {
    var rows: seq<Row>

    constructor ()
      ensures rows == []
    {
      rows := [];
    }

    method Stage(job: Job) returns (row: Option<Row>)
      modifies this
      ensures match StageJob(old(rows), job)
              case Refused => row.None? && rows == old(rows)
              case Staged(after, staged) => row == Some(staged) && rows == after
    {
      if job.id == "" {
        return None;
      }
      var at := FindRow(rows, job.id);
      if at.Some? {
        return if rows[at.value].job.text != job.text then None else Some(rows[at.value]);
      }
      rows := rows + [Row(job, Claimed, None)];
      row := Some(Row(job, Claimed, None));
    }

    method Next() returns (row: Option<Row>)
      ensures row.None? <==> forall j | 0 <= j < |rows| :: rows[j].state.Acknowledged?
      ensures row.Some? ==> exists i | 0 <= i < |rows| :: OldestOpen(rows, i) && row.value == rows[i]
    {
      var at := NextRow(rows);
      row := if at.None? then None else Some(rows[at.value]);
    }

    method MarkPrinted(id: string)
      modifies this
      ensures OnlyRowOf(id, old(rows), rows)
      ensures forall i | 0 <= i < |rows| && rows[i].job.id == id ::
                rows[i].state == PrintedPendingAck && rows[i].error == None
    {
      rows := SetState(rows, id, PrintedPendingAck, None);
    }

    method MarkFailed(id: string, error: string)
      modifies this
      ensures OnlyRowOf(id, old(rows), rows)
      ensures forall i | 0 <= i < |rows| && rows[i].job.id == id ::
                rows[i].state == FailedPendingAck && rows[i].error == Some(error)
    {
      rows := SetState(rows, id, FailedPendingAck, Some(error));
    }

    /** The error text of the row is kept. */
    method MarkAcknowledged(id: string)
      modifies this
      ensures OnlyRowOf(id, old(rows), rows)
      ensures forall i | 0 <= i < |rows| && rows[i].job.id == id ::
                rows[i].state == Acknowledged && rows[i].error == ErrorOf(old(rows), id)
    {
      rows := SetState(rows, id, Acknowledged, ErrorOf(rows, id));
    }
  }

  // ---------- The worker and its surroundings ----------

  datatype Outcome = Succeeded | Failure

  /** Where a tick of the worker is; nothing of it survives a crash. */
  datatype Phase =
    | Idle
    | Claiming
    | Announcing(job: Job)
    | Executing(job: Job)
    | Executed(job: Job, outcome: Outcome)
    | Completing(job: Job, outcome: Outcome)
    | Acking(job: Job, outcome: Outcome)

  /** The hub, what the cloud has recorded, and what really happened at the printer: successful prints per job, those of
      them that markPrinted did not record because the worker crashed before it or it threw, the outcome of the last
      execution, and the jobs whose last execution is such an unrecorded print. */
  datatype World = World(
    rows: seq<Row>, phase: Phase, cloud: map<string, Outcome>,
    prints: map<string, nat>, lost: map<string, nat>, last: map<string, Outcome>, unrecorded: set<string>)

  datatype Step =
    | Begin
    | ClaimReply(offer: Option<Job>)
    | Announce
    | Execute(outcome: Outcome)
    | MarkResult
    | MarkThrows
    | CompleteReply(recorded: bool, confirmed: bool)
    | Acknowledge
    | Crash

  function Count(m: map<string, nat>, id: string): nat {
    if id in m then m[id] else 0
  }

  function Start(w: World): World {
    var at := NextRow(w.rows);
    if at.None? then w.(phase := Claiming)
    else
      var row := w.rows[at.value];
      w.(phase := match row.state
                  case PrintedPendingAck => Completing(row.job, Succeeded)
                  case FailedPendingAck => Completing(row.job, Failure)
                  case _ => Announcing(row.job))
  }

  /** A successful print that markPrinted did not record. */
  function Lose(w: World, id: string): World {
    w.(lost := w.lost[id := Count(w.lost, id) + 1], unrecorded := w.unrecorded + {id})
  }

  /** One step of the worker or of its surroundings; a step that does not fit the phase does nothing. When markPrinted
      throws, the handler of the executor's errors marks the printed job FAILED. A mark that throws elsewhere ends the
      tick, as a crash does. */
  function Next(w: World, step: Step): World {
    match (step, w.phase)
    case (Begin, Idle) => Start(w)
    case (ClaimReply(None), Claiming) => w.(phase := Idle)
    case (ClaimReply(Some(job)), Claiming) =>
      (match StageJob(w.rows, job)
       case Refused => w.(phase := Idle)
       case Staged(rows, row) => w.(rows := rows, phase := Announcing(row.job)))
    case (Announce, Announcing(job)) => w.(phase := Executing(job))
    case (Execute(outcome), Executing(job)) =>
      w.(phase := Executed(job, outcome), last := w.last[job.id := outcome], unrecorded := w.unrecorded - {job.id},
         prints := if outcome.Succeeded? then w.prints[job.id := Count(w.prints, job.id) + 1] else w.prints)
    case (MarkResult, Executed(job, outcome)) =>
      w.(rows := if outcome.Succeeded? then SetState(w.rows, job.id, PrintedPendingAck, None)
                 else SetState(w.rows, job.id, FailedPendingAck, Some("")),
         phase := Completing(job, outcome))
    case (MarkThrows, Executed(job, Succeeded)) =>
      Lose(w, job.id).(rows := SetState(w.rows, job.id, FailedPendingAck, Some("")), phase := Completing(job, Failure))
    case (CompleteReply(recorded, confirmed), Completing(job, outcome)) =>
      var cloud := if recorded then w.cloud[job.id := outcome] else w.cloud;
      w.(cloud := cloud, phase := if recorded && confirmed then Acking(job, outcome) else Idle)
    case (Acknowledge, Acking(job, _)) =>
      w.(rows := SetState(w.rows, job.id, Acknowledged, ErrorOf(w.rows, job.id)), phase := Idle)
    case (Crash, Executed(job, Succeeded)) => Lose(w, job.id).(phase := Idle)
    case (Crash, _) => w.(phase := Idle)
    case _ => w
  }

  /** The cloud does not offer a job again once it has recorded its success; one that is refused does no harm anyway. */
  ghost predicate Honest(w: World, step: Step) {
    step.ClaimReply? && step.offer.Some? ==> Harmless(w, step.offer.value)
  }

  predicate Harmless(w: World, job: Job) {
    StageJob(w.rows, job).Refused? || !CloudHas(w, job.id, Succeeded)
  }

  predicate CloudHas(w: World, id: string, outcome: Outcome) {
    id in w.cloud && w.cloud[id] == outcome
  }

  // ---------- The invariant ----------

  function StateOf(rows: seq<Row>, id: string): Option<RowState> {
    var at := FindRow(rows, id);
    if at.None? then None else Some(rows[at.value].state)
  }

  predicate Open(rows: seq<Row>, id: string) {
    StateOf(rows, id).Some? && !StateOf(rows, id).value.Acknowledged?
  }

  ghost predicate UniqueJobs(rows: seq<Row>) {
    forall i, j | 0 <= i < j < |rows| :: rows[i].job.id != rows[j].job.id
  }

  /** At most one job is in a state other than ACKNOWLEDGED. */
  ghost predicate OneOpen(rows: seq<Row>) {
    forall a, b :: Open(rows, a) && Open(rows, b) ==> a == b
  }

  /** The worker holds a job that is staged, is the only open one if any is, and that the cloud has not seen succeed. */
  ghost predicate InHand(w: World, job: Job) {
    StateOf(w.rows, job.id) in {Some(Claimed), Some(Acknowledged)} && !CloudHas(w, job.id, Succeeded)
    && forall id :: Open(w.rows, id) ==> id == job.id
  }

  function Pending(outcome: Outcome): RowState {
    if outcome.Succeeded? then PrintedPendingAck else FailedPendingAck
  }

  predicate JustPrinted(w: World, id: string) {
    w.phase.Executed? && w.phase.job.id == id && w.phase.outcome.Succeeded?
  }

  predicate LastWas(w: World, id: string, outcome: Outcome) {
    id in w.last && w.last[id] == outcome
  }

  /** The last execution was a print that no row tells of. */
  predicate Untold(w: World, id: string) {
    id in w.unrecorded || JustPrinted(w, id)
  }

  ghost predicate PhaseFits(w: World) {
    match w.phase
    case Idle => true
    case Claiming => forall id :: !Open(w.rows, id)
    case Announcing(job) => InHand(w, job)
    case Executing(job) => InHand(w, job)
    case Executed(job, outcome) => InHand(w, job) && LastWas(w, job.id, outcome) && job.id !in w.unrecorded
    case Completing(job, outcome) => StateOf(w.rows, job.id) == Some(Pending(outcome))
    case Acking(job, outcome) => StateOf(w.rows, job.id) == Some(Pending(outcome)) && CloudHas(w, job.id, outcome)
  }

  /** What a job's row says about the cloud and the printer. */
  ghost predicate RowFits(w: World, id: string) {
    match StateOf(w.rows, id)
    case None => !CloudHas(w, id, Succeeded)
    case Some(Claimed) => !CloudHas(w, id, Succeeded)
    case Some(PrintedPendingAck) => LastWas(w, id, Succeeded) && !Untold(w, id)
    case Some(FailedPendingAck) =>
      !CloudHas(w, id, Succeeded) && id in w.last && (w.last[id] == Failure <==> !Untold(w, id))
    case Some(Acknowledged) =>
      id in w.cloud && id in w.last && (w.last[id] == w.cloud[id] <==> !Untold(w, id))
      && (CloudHas(w, id, Succeeded) ==> LastWas(w, id, Succeeded))
  }

  /** The job's last successful print is recorded durably, or still in the worker's hands. */
  predicate Accounted(w: World, id: string) {
    StateOf(w.rows, id) == Some(PrintedPendingAck) || CloudHas(w, id, Succeeded) || JustPrinted(w, id)
  }

  ghost predicate PrintsFit(w: World, id: string) {
    Count(w.prints, id) == Count(w.lost, id) + if Accounted(w, id) then 1 else 0
  }

  ghost predicate Inv(w: World) {
    UniqueJobs(w.rows) && OneOpen(w.rows) && PhaseFits(w) && forall id :: RowFits(w, id) && PrintsFit(w, id)
  }

  lemma {:induction false} FindAfterSet(rows: seq<Row>, id: string, state: RowState, error: Option<string>,
      other: string)
    ensures FindRow(SetState(rows, id, state, error), other) == FindRow(rows, other)
  {
    if rows != [] {
      FindAfterSet(rows[..|rows| - 1], id, state, error, other);
      assert SetState(rows, id, state, error)[..|rows| - 1] == SetState(rows[..|rows| - 1], id, state, error);
    }
  }

  lemma StateAfterSet(rows: seq<Row>, id: string, state: RowState, error: Option<string>)
    ensures forall other ::
              StateOf(SetState(rows, id, state, error), other)
                == if other == id && StateOf(rows, id).Some? then Some(state) else StateOf(rows, other)
    ensures UniqueJobs(rows) ==> UniqueJobs(SetState(rows, id, state, error))
  {
    forall other
      ensures StateOf(SetState(rows, id, state, error), other)
           == if other == id && StateOf(rows, id).Some? then Some(state) else StateOf(rows, other)
    {
      FindAfterSet(rows, id, state, error, other);
    }
  }

  lemma StateAfterStage(rows: seq<Row>, job: Job)
    requires StageJob(rows, job).Staged?
    ensures var r := StageJob(rows, job);
            r.row.job.id == job.id
            && (forall other :: StateOf(r.rows, other)
                  == if other == job.id && StateOf(rows, other).None? then Some(Claimed) else StateOf(rows, other))
            && (UniqueJobs(rows) ==> UniqueJobs(r.rows))
  {
    var r := StageJob(rows, job);
    if FindRow(rows, job.id).None? {
      assert r.rows[..|rows|] == rows;
    }
  }

  lemma StateOfRow(rows: seq<Row>, i: nat)
    requires UniqueJobs(rows) && i < |rows|
    ensures StateOf(rows, rows[i].job.id) == Some(rows[i].state)
  {
  }

  lemma BeginKeeps(w: World)
    requires Inv(w) && w.phase.Idle?
    ensures Inv(Start(w))
  {
    var w' := Start(w);
    var at := NextRow(w.rows);
    if at.Some? {
      StateOfRow(w.rows, at.value);
      assert RowFits(w, w.rows[at.value].job.id);
      assert Open(w.rows, w.rows[at.value].job.id);
    }
    forall id ensures RowFits(w', id) && PrintsFit(w', id) {
      assert RowFits(w, id) && PrintsFit(w, id);
    }
  }

  lemma ClaimKeeps(w: World, job: Job)
    requires Inv(w) && w.phase.Claiming? && Harmless(w, job)
    ensures Inv(Next(w, ClaimReply(Some(job))))
  {
    var w' := Next(w, ClaimReply(Some(job)));
    if StageJob(w.rows, job).Staged? {
      StateAfterStage(w.rows, job);
      assert !Open(w.rows, job.id);
      assert w'.phase.job.id == job.id;
      forall id ensures Open(w'.rows, id) ==> id == job.id {
        assert !Open(w.rows, id);
      }
    }
    forall id ensures RowFits(w', id) && PrintsFit(w', id) {
      assert RowFits(w, id) && PrintsFit(w, id);
    }
  }

  lemma ExecuteKeeps(w: World, outcome: Outcome)
    requires Inv(w) && w.phase.Executing?
    ensures Inv(Next(w, Execute(outcome)))
  {
    var w' := Next(w, Execute(outcome));
    forall id ensures RowFits(w', id) && PrintsFit(w', id) {
      assert RowFits(w, id) && PrintsFit(w, id);
    }
  }

  /** The states of the rows, without the rest of the row. */
  ghost predicate SetsState(before: seq<Row>, after: seq<Row>, id: string, state: RowState) {
    forall other :: StateOf(after, other) == if other == id && StateOf(before, id).Some? then Some(state)
        else StateOf(before, other)
  }

  lemma MarkKeeps(w: World)
    requires Inv(w) && w.phase.Executed?
    ensures Inv(Next(w, MarkResult))
  {
    var w' := Next(w, MarkResult);
    var job := w.phase.job;
    var state := Pending(w.phase.outcome);
    StateAfterSet(w.rows, job.id, state, if w.phase.outcome.Succeeded? then None else Some(""));
    MarkedFits(w, w'.rows);
  }

  lemma MarkedFits(w: World, rows: seq<Row>)
    requires Inv(w) && w.phase.Executed? && UniqueJobs(rows)
    requires SetsState(w.rows, rows, w.phase.job.id, Pending(w.phase.outcome))
    ensures Inv(w.(rows := rows, phase := Completing(w.phase.job, w.phase.outcome)))
  {
    var job := w.phase.job;
    var w' := w.(rows := rows, phase := Completing(job, w.phase.outcome));
    assert InHand(w, job);
    forall id ensures (Open(rows, id) ==> id == job.id) && RowFits(w', id) && PrintsFit(w', id) {
      assert RowFits(w, id) && PrintsFit(w, id);
      assert Open(w.rows, id) ==> id == job.id;
    }
  }

  lemma ThrowKeeps(w: World)
    requires Inv(w) && w.phase.Executed?
    ensures Inv(Next(w, MarkThrows))
  {
    if w.phase.outcome.Succeeded? {
      var w' := Next(w, MarkThrows);
      StateAfterSet(w.rows, w.phase.job.id, FailedPendingAck, Some(""));
      ThrownFits(w, w'.rows);
    }
  }

  lemma ThrownFits(w: World, rows: seq<Row>)
    requires Inv(w) && w.phase.Executed? && w.phase.outcome.Succeeded? && UniqueJobs(rows)
    requires SetsState(w.rows, rows, w.phase.job.id, FailedPendingAck)
    ensures Inv(Lose(w, w.phase.job.id).(rows := rows, phase := Completing(w.phase.job, Failure)))
  {
    var job := w.phase.job;
    var w' := Lose(w, job.id).(rows := rows, phase := Completing(job, Failure));
    assert InHand(w, job);
    forall id ensures (Open(rows, id) ==> id == job.id) && RowFits(w', id) && PrintsFit(w', id) {
      assert RowFits(w, id) && PrintsFit(w, id);
      assert Open(w.rows, id) ==> id == job.id;
    }
  }

  lemma CompleteKeeps(w: World, recorded: bool, confirmed: bool)
    requires Inv(w) && w.phase.Completing?
    ensures Inv(Next(w, CompleteReply(recorded, confirmed)))
  {
    if recorded {
      RecordedFits(w, w.phase.job.id, if confirmed then Acking(w.phase.job, w.phase.outcome) else Idle);
    } else {
      var w' := w.(phase := Idle);
      forall id ensures RowFits(w', id) && PrintsFit(w', id) {
        assert RowFits(w, id) && PrintsFit(w, id);
      }
    }
  }

  lemma RecordedFits(w: World, id: string, phase: Phase)
    requires Inv(w) && w.phase.Completing? && w.phase.job.id == id
    requires phase == Idle || phase == Acking(w.phase.job, w.phase.outcome)
    ensures Inv(w.(cloud := w.cloud[id := w.phase.outcome], phase := phase))
  {
    var w' := w.(cloud := w.cloud[id := w.phase.outcome], phase := phase);
    forall other ensures RowFits(w', other) && PrintsFit(w', other) {
      assert RowFits(w, other) && PrintsFit(w, other);
    }
  }

  lemma AcknowledgeKeeps(w: World)
    requires Inv(w) && w.phase.Acking?
    ensures Inv(Next(w, Acknowledge))
  {
    var job := w.phase.job;
    StateAfterSet(w.rows, job.id, Acknowledged, ErrorOf(w.rows, job.id));
    AcknowledgedFits(w, Next(w, Acknowledge).rows);
  }

  lemma AcknowledgedFits(w: World, rows: seq<Row>)
    requires Inv(w) && w.phase.Acking? && UniqueJobs(rows)
    requires SetsState(w.rows, rows, w.phase.job.id, Acknowledged)
    ensures Inv(w.(rows := rows, phase := Idle))
  {
    var w' := w.(rows := rows, phase := Idle);
    forall id ensures RowFits(w', id) && PrintsFit(w', id) {
      assert RowFits(w, id) && PrintsFit(w, id);
    }
    forall a, b | Open(rows, a) && Open(rows, b) ensures a == b {
      assert Open(w.rows, a) && Open(w.rows, b);
    }
  }

  lemma CrashKeeps(w: World)
    requires Inv(w)
    ensures Inv(Next(w, Crash))
  {
    if w.phase.Executed? && w.phase.outcome.Succeeded? {
      LostKeeps(w, w.phase.job);
    } else {
      var w' := w.(phase := Idle);
      forall id ensures RowFits(w', id) && PrintsFit(w', id) {
        assert RowFits(w, id) && PrintsFit(w, id);
      }
    }
  }

  lemma LostKeeps(w: World, job: Job)
    requires Inv(w) && w.phase == Executed(job, Succeeded)
    ensures Inv(Lose(w, job.id).(phase := Idle))
  {
    var w' := Lose(w, job.id).(phase := Idle);
    forall id ensures RowFits(w', id) && PrintsFit(w', id) {
      assert RowFits(w, id) && PrintsFit(w, id);
    }
  }

  lemma QuietKeeps(w: World, step: Step)
    requires Inv(w) && step in {Announce, ClaimReply(None)}
    ensures Inv(Next(w, step))
  {
    var w' := Next(w, step);
    forall id ensures RowFits(w', id) && PrintsFit(w', id) {
      assert RowFits(w, id) && PrintsFit(w, id);
    }
  }

  lemma NextKeeps(w: World, step: Step)
    requires Inv(w) && Honest(w, step)
    ensures Inv(Next(w, step))
  {
    match (step, w.phase) {
      case (Begin, Idle) => BeginKeeps(w);
      case (ClaimReply(Some(job)), Claiming) => ClaimKeeps(w, job);
      case (ClaimReply(None), _) => QuietKeeps(w, step);
      case (Execute(outcome), Executing(_)) => ExecuteKeeps(w, outcome);
      case (MarkResult, Executed(_, _)) => MarkKeeps(w);
      case (MarkThrows, Executed(_, _)) => ThrowKeeps(w);
      case (CompleteReply(recorded, confirmed), Completing(_, _)) => CompleteKeeps(w, recorded, confirmed);
      case (Acknowledge, Acking(_, _)) => AcknowledgeKeeps(w);
      case (Crash, _) => CrashKeeps(w);
      case (Announce, _) => QuietKeeps(w, step);
      case _ =>
    }
  }

  // ---------- Whole runs ----------

  const EMPTY := World([], Idle, map[], map[], map[], map[], {})

  function After(w: World, steps: seq<Step>): World
    decreases |steps|
  {
    if steps == [] then w else After(Next(w, steps[0]), steps[1..])
  }

  ghost predicate HonestRun(w: World, steps: seq<Step>)
    decreases |steps|
  {
    steps != [] ==> Honest(w, steps[0]) && HonestRun(Next(w, steps[0]), steps[1..])
  }

  lemma {:induction false} RunKeeps(w: World, steps: seq<Step>)
    requires Inv(w) && HonestRun(w, steps)
    ensures Inv(After(w, steps))
    decreases |steps|
  {
    if steps != [] {
      NextKeeps(w, steps[0]);
      RunKeeps(Next(w, steps[0]), steps[1..]);
    }
  }

  /** Over any run of ticks, lost replies, failed marks and crashes, a job is printed at most once more than the prints
      that markPrinted did not record; at most one job is not acknowledged; a job the cloud knows as succeeded was
      printed by its last execution; and an acknowledged job has an outcome in the cloud, which is that of its last
      execution exactly unless that execution is an unrecorded print. */
  lemma PrintingSurvives(steps: seq<Step>, id: string)
    requires HonestRun(EMPTY, steps)
    ensures var w := After(EMPTY, steps);
            Count(w.prints, id) <= 1 + Count(w.lost, id)
            && (forall a, b :: Open(w.rows, a) && Open(w.rows, b) ==> a == b)
            && (CloudHas(w, id, Succeeded) ==> LastWas(w, id, Succeeded))
            && (StateOf(w.rows, id) == Some(Acknowledged) ==>
                  id in w.cloud && id in w.last && (w.cloud[id] == w.last[id] <==> !Untold(w, id)))
  {
    RunKeeps(EMPTY, steps);
    var w := After(EMPTY, steps);
    assert RowFits(w, id) && PrintsFit(w, id);
  }

  lemma {:induction false} RunOn(w: World, steps: seq<Step>, more: seq<Step>)
    requires HonestRun(w, steps) && HonestRun(After(w, steps), more)
    ensures HonestRun(w, steps + more) && After(w, steps + more) == After(After(w, steps), more)
    decreases |steps|
  {
    if steps == [] {
      assert steps + more == more;
    } else {
      RunOn(Next(w, steps[0]), steps[1..], more);
      assert (steps + more)[1..] == steps[1..] + more;
    }
  }

  lemma OneRow(job: Job, state: RowState, error: Option<string>)
    ensures var rows := [Row(job, state, error)];
            FindRow(rows, job.id) == Some(0)
            && NextRow(rows) == (if state.Acknowledged? then None else Some(0))
            && forall s, e :: SetState(rows, job.id, s, e) == [Row(job, s, e)]
  {
    var rows := [Row(job, state, error)];
    assert rows[..0] == [] && rows[1..] == [];
  }

  /** The steps of a tick that claims a job and executes it. */
  function Execution(job: Job, outcome: Outcome): seq<Step> {
    [Begin, ClaimReply(Some(job)), Announce, Execute(outcome)]
  }

  const SETTLED := [MarkResult, CompleteReply(true, true), Acknowledge]

  /** A print fails and is acknowledged, the cloud offers the job again, and the worker crashes after the second print
      and before markPrinted. */
  function LostReprint(job: Job): seq<Step> {
    Execution(job, Failure) + SETTLED + (Execution(job, Succeeded) + [Crash])
  }

  lemma FirstStep(w: World, step: Step, rest: seq<Step>)
    ensures After(w, [step] + rest) == After(Next(w, step), rest)
    ensures HonestRun(w, [step] + rest) <==> Honest(w, step) && HonestRun(Next(w, step), rest)
  {
    assert ([step] + rest)[1..] == rest;
  }

  lemma ThreeSteps(w: World, a: Step, b: Step, c: Step)
    ensures var w1 := Next(w, a);
            var w2 := Next(w1, b);
            After(w, [a, b, c]) == Next(w2, c)
            && (HonestRun(w, [a, b, c]) <==> Honest(w, a) && Honest(w1, b) && Honest(w2, c))
  {
    var w1 := Next(w, a);
    FirstStep(Next(w1, b), c, []);
    FirstStep(w1, b, [c]);
    FirstStep(w, a, [b, c]);
    assert [a, b, c] == [a] + [b, c] && [b, c] == [b] + [c] && [c] == [c] + [];
  }

  lemma ExecutionRuns(w: World, job: Job, outcome: Outcome)
    requires w.phase.Idle? && NextRow(w.rows).None? && StageJob(w.rows, job).Staged? && !CloudHas(w, job.id, Succeeded)
    requires StageJob(w.rows, job).row.job == job
    ensures HonestRun(w, Execution(job, outcome))
    ensures After(w, Execution(job, outcome))
         == w.(rows := StageJob(w.rows, job).rows, phase := Executed(job, outcome), last := w.last[job.id := outcome],
               unrecorded := w.unrecorded - {job.id},
               prints := if outcome.Succeeded? then w.prints[job.id := Count(w.prints, job.id) + 1] else w.prints)
  {
    assert Execution(job, outcome) == [Begin] + [ClaimReply(Some(job)), Announce, Execute(outcome)];
    FirstStep(w, Begin, [ClaimReply(Some(job)), Announce, Execute(outcome)]);
    var claiming := w.(phase := Claiming);
    assert Next(w, Begin) == claiming;
    ThreeSteps(claiming, ClaimReply(Some(job)), Announce, Execute(outcome));
    ClaimedExecution(claiming, job, outcome);
  }

  lemma ClaimedExecution(w: World, job: Job, outcome: Outcome)
    requires w.phase.Claiming? && StageJob(w.rows, job).Staged? && StageJob(w.rows, job).row.job == job
    ensures Next(Next(Next(w, ClaimReply(Some(job))), Announce), Execute(outcome))
         == w.(rows := StageJob(w.rows, job).rows, phase := Executed(job, outcome), last := w.last[job.id := outcome],
               unrecorded := w.unrecorded - {job.id},
               prints := if outcome.Succeeded? then w.prints[job.id := Count(w.prints, job.id) + 1] else w.prints)
  {
    var announcing := w.(rows := StageJob(w.rows, job).rows, phase := Announcing(job));
    assert Next(w, ClaimReply(Some(job))) == announcing;
    assert Next(announcing, Announce) == announcing.(phase := Executing(job));
  }

  lemma SettlingRuns(w: World, job: Job)
    requires w.phase.Executed? && w.phase.job == job && w.rows == [Row(job, Claimed, None)]
    ensures HonestRun(w, SETTLED)
    ensures After(w, SETTLED)
         == w.(rows := [Row(job, Acknowledged, if w.phase.outcome.Succeeded? then None else Some(""))], phase := Idle,
               cloud := w.cloud[job.id := w.phase.outcome])
  {
    ThreeSteps(w, MarkResult, CompleteReply(true, true), Acknowledge);
    MarkOne(w, job);
    AcknowledgeOne(Next(Next(w, MarkResult), CompleteReply(true, true)), job);
  }

  lemma MarkOne(w: World, job: Job)
    requires w.phase.Executed? && w.phase.job == job && w.rows == [Row(job, Claimed, None)]
    ensures Next(w, MarkResult) == w.(phase := Completing(job, w.phase.outcome),
              rows := [Row(job, Pending(w.phase.outcome), if w.phase.outcome.Succeeded? then None else Some(""))])
  {
    OneRow(job, Claimed, None);
  }

  lemma AcknowledgeOne(w: World, job: Job)
    requires w.phase.Acking? && w.phase.job == job && |w.rows| == 1 && w.rows[0].job == job
    ensures Next(w, Acknowledge) == w.(phase := Idle, rows := [Row(job, Acknowledged, w.rows[0].error)])
  {
    OneRow(job, w.rows[0].state, w.rows[0].error);
    assert w.rows == [Row(job, w.rows[0].state, w.rows[0].error)];
  }

  /** A first tick that ends acknowledged. */
  function Settled(job: Job, outcome: Outcome): World {
    World([Row(job, Acknowledged, if outcome.Succeeded? then None else Some(""))], Idle, map[job.id := outcome],
          if outcome.Succeeded? then map[job.id := 1] else map[], map[], map[job.id := outcome], {})
  }

  /** The world after the first execution of a first job. */
  function FirstExecuted(job: Job, outcome: Outcome): World {
    World([Row(job, Claimed, None)], Executed(job, outcome), map[],
          if outcome.Succeeded? then map[job.id := 1] else map[], map[], map[job.id := outcome], {})
  }

  lemma FirstExecution(job: Job, outcome: Outcome)
    requires job.id != ""
    ensures HonestRun(EMPTY, Execution(job, outcome))
    ensures After(EMPTY, Execution(job, outcome)) == FirstExecuted(job, outcome)
  {
    assert StageJob([], job) == Staged([Row(job, Claimed, None)], Row(job, Claimed, None));
    ExecutionRuns(EMPTY, job, outcome);
  }

  lemma FirstSettled(job: Job, outcome: Outcome)
    ensures HonestRun(FirstExecuted(job, outcome), SETTLED)
    ensures After(FirstExecuted(job, outcome), SETTLED) == Settled(job, outcome)
  {
    SettlingRuns(FirstExecuted(job, outcome), job);
  }

  lemma FirstTick(job: Job, outcome: Outcome)
    requires job.id != ""
    ensures HonestRun(EMPTY, Execution(job, outcome) + SETTLED)
    ensures After(EMPTY, Execution(job, outcome) + SETTLED) == Settled(job, outcome)
  {
    FirstExecution(job, outcome);
    FirstSettled(job, outcome);
    RunOn(EMPTY, Execution(job, outcome), SETTLED);
  }

  lemma LostExecution(w: World, job: Job)
    requires w == Settled(job, Failure) && job.id != ""
    ensures HonestRun(w, Execution(job, Succeeded) + [Crash])
    ensures var lost := After(w, Execution(job, Succeeded) + [Crash]);
            lost.rows == w.rows && lost.phase.Idle? && lost.cloud == w.cloud && lost.unrecorded == {job.id}
            && LastWas(lost, job.id, Succeeded)
  {
    OneRow(job, Acknowledged, Some(""));
    ExecutionRuns(w, job, Succeeded);
    var printed := After(w, Execution(job, Succeeded));
    FirstStep(printed, Crash, []);
    assert [Crash] + [] == [Crash];
    RunOn(w, Execution(job, Succeeded), [Crash]);
  }

  /** Why the outcome of an acknowledged job carries a condition: an honest run that ends with a printed job whose row
      is acknowledged while the cloud has it as failed. */
  lemma LostReprintStaysFailed(job: Job)
    requires job.id != ""
    ensures HonestRun(EMPTY, LostReprint(job))
    ensures var w := After(EMPTY, LostReprint(job));
            w.phase.Idle? && StateOf(w.rows, job.id) == Some(Acknowledged) && job.id in w.unrecorded
            && CloudHas(w, job.id, Failure) && LastWas(w, job.id, Succeeded)
  {
    FirstTick(job, Failure);
    LostExecution(Settled(job, Failure), job);
    RunOn(EMPTY, Execution(job, Failure) + SETTLED, Execution(job, Succeeded) + [Crash]);
    OneRow(job, Acknowledged, Some(""));
  }

  /** Exactly which offers are harmless: only one that stages a job the cloud recorded as succeeded leaves the
      invariant. */
  lemma OfferKeepsExactly(w: World, job: Job)
    requires Inv(w) && w.phase.Claiming?
    ensures Inv(Next(w, ClaimReply(Some(job)))) <==> Harmless(w, job)
  {
    if Harmless(w, job) {
      ClaimKeeps(w, job);
    } else {
      StateAfterStage(w.rows, job);
    }
  }

  /** What comes of it: when the job on offer is printed, it has a print too many, without any crash, exactly then. */
  lemma ReofferPrintsTwiceExactly(w: World, job: Job)
    requires Inv(w) && w.phase.Claiming?
    ensures var printed := Next(Next(Next(w, ClaimReply(Some(job))), Announce), Execute(Succeeded));
            Count(printed.prints, job.id) > 1 + Count(printed.lost, job.id) <==> !Harmless(w, job)
  {
    PrintedCount(w, job);
    if StageJob(w.rows, job).Staged? {
      PrintsBefore(w, job.id);
    } else {
      assert PrintsFit(w, job.id);
    }
  }

  lemma PrintsBefore(w: World, id: string)
    requires Inv(w) && w.phase.Claiming?
    ensures Count(w.prints, id) == Count(w.lost, id) + if CloudHas(w, id, Succeeded) then 1 else 0
  {
    assert PrintsFit(w, id);
    assert !Open(w.rows, id);
  }

  lemma PrintedCount(w: World, job: Job)
    requires w.phase.Claiming?
    ensures var printed := Next(Next(Next(w, ClaimReply(Some(job))), Announce), Execute(Succeeded));
            printed.lost == w.lost
            && Count(printed.prints, job.id) == Count(w.prints, job.id) + if StageJob(w.rows, job).Staged? then 1 else 0
  {
    var claimed := Next(w, ClaimReply(Some(job)));
    assert claimed.prints == w.prints && claimed.lost == w.lost;
    if StageJob(w.rows, job).Staged? {
      StagedId(w.rows, job);
      AnnouncedPrints(claimed, claimed.phase.job);
    } else {
      assert Next(claimed, Announce) == claimed;
    }
  }

  lemma StagedId(rows: seq<Row>, job: Job)
    requires StageJob(rows, job).Staged?
    ensures StageJob(rows, job).row.job.id == job.id
  {
  }

  lemma AnnouncedPrints(w: World, job: Job)
    requires w.phase == Announcing(job)
    ensures var printed := Next(Next(w, Announce), Execute(Succeeded));
            printed.lost == w.lost && Count(printed.prints, job.id) == Count(w.prints, job.id) + 1
  {
  }

  /** Such an offer is possible after a run of the machine: one undisturbed print. */
  lemma SucceededJobIsStagedAgain(job: Job)
    requires job.id != ""
    ensures var steps := Execution(job, Succeeded) + SETTLED + [Begin];
            HonestRun(EMPTY, steps) && After(EMPTY, steps).phase.Claiming? && !Harmless(After(EMPTY, steps), job)
  {
    FirstTick(job, Succeeded);
    OneRow(job, Acknowledged, None);
    FirstStep(Settled(job, Succeeded), Begin, []);
    assert [Begin] + [] == [Begin];
    RunOn(EMPTY, Execution(job, Succeeded) + SETTLED, [Begin]);
  }

  // ---------- One undisturbed tick ----------

  /** What the surroundings answer to one tick that does not crash. */
  datatype Answers = Answers(offer: Option<Job>, outcome: Outcome, marked: bool, recorded: bool, confirmed: bool)

  function Rank(phase: Phase): nat {
    match phase
    case Claiming => 6
    case Announcing(_) => 5
    case Executing(_) => 4
    case Executed(_, _) => 3
    case Completing(_, _) => 2
    case Acking(_, _) => 1
    case Idle => 0
  }

  function Choose(phase: Phase, a: Answers): Step {
    match phase
    case Idle => Begin
    case Claiming => ClaimReply(a.offer)
    case Announcing(_) => Announce
    case Executing(_) => Execute(a.outcome)
    case Executed(_, outcome) => if a.marked || outcome.Failure? then MarkResult else MarkThrows
    case Completing(_, _) => CompleteReply(a.recorded, a.confirmed)
    case Acking(_, _) => Acknowledge
  }

  /** The worker's steps until it is idle again. */
  function Finish(w: World, a: Answers): World
    decreases Rank(w.phase)
  {
    if w.phase.Idle? then w else Finish(Next(w, Choose(w.phase, a)), a)
  }

  lemma FinishCompleting(w: World, a: Answers)
    requires w.phase.Completing?
    ensures var id := w.phase.job.id;
            Finish(w, a) == w.(phase := Idle, cloud := if a.recorded then w.cloud[id := w.phase.outcome] else w.cloud,
                               rows := if !(a.recorded && a.confirmed) then w.rows
                                       else SetState(w.rows, id, Acknowledged, ErrorOf(w.rows, id)))
  {
    var next := Next(w, CompleteReply(a.recorded, a.confirmed));
    assert Finish(w, a) == Finish(next, a);
    if next.phase.Acking? {
      assert Finish(next, a) == Finish(Next(next, Acknowledge), a);
    }
  }

  /** After the execution of a job and its durable mark. */
  function Performed(w: World, job: Job, a: Answers): World {
    var last, recorded := w.last[job.id := a.outcome], w.unrecorded - {job.id};
    if a.outcome.Failure? then
      w.(rows := SetState(w.rows, job.id, FailedPendingAck, Some("")), phase := Completing(job, Failure), last := last,
         unrecorded := recorded)
    else if a.marked then
      w.(rows := SetState(w.rows, job.id, PrintedPendingAck, None), phase := Completing(job, Succeeded), last := last,
         unrecorded := recorded, prints := w.prints[job.id := Count(w.prints, job.id) + 1])
    else
      w.(rows := SetState(w.rows, job.id, FailedPendingAck, Some("")), phase := Completing(job, Failure), last := last,
         unrecorded := recorded + {job.id}, prints := w.prints[job.id := Count(w.prints, job.id) + 1],
         lost := w.lost[job.id := Count(w.lost, job.id) + 1])
  }

  lemma FinishAnnouncing(w: World, job: Job, a: Answers)
    ensures Finish(w.(phase := Announcing(job)), a) == Finish(Performed(w, job, a), a)
  {
    var w0 := w.(phase := Announcing(job));
    var w1 := Next(w0, Announce);
    var w2 := Next(w1, Execute(a.outcome));
    assert Finish(w0, a) == Finish(w1, a) == Finish(w2, a);
    assert Performed(w, job, a) == Next(w2, Choose(w2.phase, a));
  }

  // ---------- What a tick does ----------

  /** The outcome that goes on record: a print that could not be marked counts as failed. */
  predicate OnRecord(a: Answers, outcome: Outcome) {
    outcome == Succeeded <==> a.outcome == Succeeded && a.marked
  }

  /** The cloud knows the outcome exactly when it recorded the request, and the row is acknowledged exactly when besides
      its reply came back; otherwise the row waits in the state of the outcome. */
  ghost predicate ReportedAs(w: World, w': World, id: string, outcome: Outcome, a: Answers) {
    w'.cloud == (if a.recorded then w.cloud[id := outcome] else w.cloud)
    && forall i | 0 <= i < |w'.rows| && w'.rows[i].job.id == id ::
      w'.rows[i].state == if a.recorded && a.confirmed then Acknowledged
                          else if outcome == Succeeded then PrintedPendingAck else FailedPendingAck
  }

  ghost predicate HasRowOf(rows: seq<Row>, id: string) {
    exists i | 0 <= i < |rows| :: rows[i].job.id == id
  }

  /** The job was executed once, with this outcome, and no other job was. */
  ghost predicate Counted(w: World, w': World, id: string, a: Answers) {
    w'.last == w.last[id := a.outcome]
    && Count(w'.prints, id) == Count(w.prints, id) + (if a.outcome == Succeeded then 1 else 0)
    && Count(w'.lost, id) == Count(w.lost, id) + (if a.outcome == Succeeded && !a.marked then 1 else 0)
    && forall other | other != id ::
      Count(w'.prints, other) == Count(w.prints, other) && Count(w'.lost, other) == Count(w.lost, other)
  }

  /** A job with a row in these rows is executed, its outcome marked and reported; no other job is touched. */
  ghost predicate ExecutedIn(w: World, rows: seq<Row>, w': World, id: string, a: Answers) {
    OnlyRowOf(id, rows, w'.rows)
    && HasRowOf(w'.rows, id) && Counted(w, w', id, a)
    && (exists outcome :: OnRecord(a, outcome) && ReportedAs(w, w', id, outcome, a))
  }

  /** Only the outcome on the row is reported: nothing is executed. */
  ghost predicate ReportedOnly(w: World, w': World, id: string, outcome: Outcome, a: Answers) {
    OnlyRowOf(id, w.rows, w'.rows) && ReportedAs(w, w', id, outcome, a)
    && w'.last == w.last && w'.prints == w.prints && w'.lost == w.lost && w'.unrecorded == w.unrecorded
  }

  /** What a tick that nothing disturbs makes of the oldest open row, or of an offer when no row is open. */
  ghost predicate TickDone(w: World, a: Answers, w': World) {
    w'.phase == Idle
    && (forall i | 0 <= i < |w.rows| && OldestOpen(w.rows, i) ::
          match w.rows[i].state
          case PrintedPendingAck => ReportedOnly(w, w', w.rows[i].job.id, Succeeded, a)
          case FailedPendingAck => ReportedOnly(w, w', w.rows[i].job.id, Failure, a)
          case _ => ExecutedIn(w, w.rows, w', w.rows[i].job.id, a))
    && ((forall i | 0 <= i < |w.rows| :: w.rows[i].state == Acknowledged) ==>
          match a.offer
          case None => w' == w
          case Some(job) =>
            if job.id == "" || (exists row | row in w.rows :: row.job.id == job.id && row.job.text != job.text) then
              w' == w
            else if exists row | row in w.rows :: row.job.id == job.id then ExecutedIn(w, w.rows, w', job.id, a)
            else ExecutedIn(w, w.rows + [Row(job, Claimed, None)], w', job.id, a))
  }

  lemma TickExecutes(w: World, rows: seq<Row>, job: Job, a: Answers)
    requires HasRowOf(rows, job.id)
    ensures var w' := Finish(w.(rows := rows, phase := Announcing(job)), a);
            w'.phase == Idle && ExecutedIn(w, rows, w', job.id, a)
  {
    var w1 := w.(rows := rows);
    FinishAnnouncing(w1, job, a);
    assert w1.(phase := Announcing(job)) == w.(rows := rows, phase := Announcing(job));
    PerformedReports(w1, job, a);
    PerformedCounts(w1, job, a);
    MakeExecuted(w, rows, Finish(Performed(w1, job, a), a), job.id, a, Performed(w1, job, a).phase.outcome);
  }

  lemma MakeExecuted(w: World, rows: seq<Row>, w': World, id: string, a: Answers, outcome: Outcome)
    requires OnlyRowOf(id, rows, w'.rows) && HasRowOf(w'.rows, id) && OnRecord(a, outcome)
    requires ReportedAs(w.(rows := rows), w', id, outcome, a) && Counted(w, w', id, a)
    ensures ExecutedIn(w, rows, w', id, a)
  {
    assert ReportedAs(w, w', id, outcome, a);
  }

  lemma PerformedCounts(w: World, job: Job, a: Answers)
    ensures var done, w' := Performed(w, job, a), Finish(Performed(w, job, a), a);
            OnRecord(a, done.phase.outcome) && w'.phase == Idle && Counted(w, w', job.id, a)
  {
    FinishCompleting(Performed(w, job, a), a);
  }

  lemma PerformedReports(w: World, job: Job, a: Answers)
    requires HasRowOf(w.rows, job.id)
    ensures var done, w' := Performed(w, job, a), Finish(Performed(w, job, a), a);
            ReportedAs(w, w', job.id, done.phase.outcome, a) && OnlyRowOf(job.id, w.rows, w'.rows)
            && HasRowOf(w'.rows, job.id)
  {
    var done := Performed(w, job, a);
    FinishCompleting(done, a);
    var i :| 0 <= i < |w.rows| && w.rows[i].job.id == job.id;
    assert Finish(done, a).rows[i].job.id == job.id;
  }

  lemma TickReports(w: World, i: nat, outcome: Outcome, a: Answers)
    requires i < |w.rows| && UniqueJobs(w.rows) && w.rows[i].state == Pending(outcome)
    ensures var w' := Finish(w.(phase := Completing(w.rows[i].job, outcome)), a);
            w'.phase == Idle && ReportedOnly(w, w', w.rows[i].job.id, outcome, a)
  {
    FinishCompleting(w.(phase := Completing(w.rows[i].job, outcome)), a);
  }

  lemma TickFinds(w: World, a: Answers, i: nat)
    requires w.phase.Idle? && UniqueJobs(w.rows) && i < |w.rows| && OldestOpen(w.rows, i)
    ensures var w' := Finish(Start(w), a);
            w'.phase == Idle
            && match w.rows[i].state
               case PrintedPendingAck => ReportedOnly(w, w', w.rows[i].job.id, Succeeded, a)
               case FailedPendingAck => ReportedOnly(w, w', w.rows[i].job.id, Failure, a)
               case _ => ExecutedIn(w, w.rows, w', w.rows[i].job.id, a)
  {
    assert NextRow(w.rows) == Some(i);
    match w.rows[i].state {
      case PrintedPendingAck => TickReports(w, i, Succeeded, a);
      case FailedPendingAck => TickReports(w, i, Failure, a);
      case Claimed =>
        assert HasRowOf(w.rows, w.rows[i].job.id);
        TickExecutes(w, w.rows, w.rows[i].job, a);
        assert w.(rows := w.rows, phase := Announcing(w.rows[i].job)) == Start(w);
      case Acknowledged =>
    }
  }

  lemma TickClaims(w: World, a: Answers)
    requires w.phase.Idle? && UniqueJobs(w.rows) && forall i | 0 <= i < |w.rows| :: w.rows[i].state.Acknowledged?
    ensures var w' := Finish(Start(w), a);
            w'.phase == Idle
            && match a.offer
               case None => w' == w
               case Some(job) =>
                 match StageJob(w.rows, job)
                 case Refused => w' == w
                 case Staged(rows, _) => ExecutedIn(w, rows, w', job.id, a)
  {
    var claiming := Start(w);
    assert claiming == w.(phase := Claiming);
    var next := Next(claiming, ClaimReply(a.offer));
    assert Finish(claiming, a) == Finish(next, a);
    if a.offer.Some? && StageJob(w.rows, a.offer.value).Staged? {
      var r := StageJob(w.rows, a.offer.value);
      StagedId(w.rows, a.offer.value);
      StagedHasRow(w.rows, a.offer.value);
      TickExecutes(w, r.rows, r.row.job, a);
      assert next == w.(rows := r.rows, phase := Announcing(r.row.job));
    } else {
      assert next == w;
    }
  }

  lemma StagedHasRow(rows: seq<Row>, job: Job)
    requires StageJob(rows, job).Staged?
    ensures HasRowOf(StageJob(rows, job).rows, job.id)
  {
    var r := StageJob(rows, job).rows;
    assert r[|r| - 1] in r;
  }

  /** Staging, without looking for the row: new jobs get a row, known ones keep theirs. */
  lemma StagesExactly(rows: seq<Row>, job: Job)
    requires UniqueJobs(rows)
    ensures match StageJob(rows, job)
            case Refused => job.id == "" || exists row | row in rows :: row.job.id == job.id && row.job.text != job.text
            case Staged(after, _) =>
              job.id != "" && (forall row | row in rows && row.job.id == job.id :: row.job.text == job.text)
              && after == if exists row | row in rows :: row.job.id == job.id then rows
                          else rows + [Row(job, Claimed, None)]
  {
    var at := FindRow(rows, job.id);
    if at.Some? {
      assert rows[at.value] in rows;
      forall row | row in rows && row.job.id == job.id ensures row == rows[at.value] {
        var i :| 0 <= i < |rows| && rows[i] == row;
      }
    }
  }

  /** An undisturbed tick of an idle worker does what it should. */
  lemma TickDoes(w: World, a: Answers)
    requires w.phase.Idle? && UniqueJobs(w.rows)
    ensures TickDone(w, a, Finish(Start(w), a))
  {
    forall i | 0 <= i < |w.rows| && OldestOpen(w.rows, i)
      ensures match w.rows[i].state
              case PrintedPendingAck => ReportedOnly(w, Finish(Start(w), a), w.rows[i].job.id, Succeeded, a)
              case FailedPendingAck => ReportedOnly(w, Finish(Start(w), a), w.rows[i].job.id, Failure, a)
              case _ => ExecutedIn(w, w.rows, Finish(Start(w), a), w.rows[i].job.id, a)
    {
      TickFinds(w, a, i);
    }
    if NextRow(w.rows).None? {
      TickClaims(w, a);
      if a.offer.Some? {
        StagesExactly(w.rows, a.offer.value);
      }
    } else {
      TickFinds(w, a, NextRow(w.rows).value);
    }
  }

  /** A crash forgets the tick and nothing else. */
  lemma CrashForgets(w: World)
    ensures var w' := Next(w, Crash);
            w'.phase == Idle && w'.rows == w.rows && w'.cloud == w.cloud && w'.prints == w.prints && w'.last == w.last
  {
  }

  /** A job that was claimed and staged before a crash is executed by the next tick. */
  lemma CrashedClaimIsExecuted(w: World, job: Job, a: Answers)
    requires Inv(w) && w.phase in {Announcing(job), Executing(job)} && StateOf(w.rows, job.id) == Some(Claimed)
    ensures var crashed := Next(w, Crash);
            ExecutedIn(crashed, w.rows, Finish(Start(crashed), a), job.id, a)
  {
    var crashed := Next(w, Crash);
    var i := FindRow(w.rows, job.id).value;
    assert InHand(w, job) && Open(w.rows, job.id);
    forall j | 0 <= j < i ensures w.rows[j].state.Acknowledged? {
      StateOfRow(w.rows, j);
      var isOpen := Open(w.rows, w.rows[j].job.id);
    }
    TickFinds(crashed, a, i);
  }

  lemma SameRows(before: seq<Row>, after: seq<Row>, id: string, state: RowState, error: Option<string>)
    requires OnlyRowOf(id, before, after)
    requires forall i | 0 <= i < |after| && after[i].job.id == id :: after[i].state == state && after[i].error == error
    ensures after == SetState(before, id, state, error)
  {
  }

  class EdgeHub {
    const printing: PrintContinuityStore
    var registered: bool
    var printWorkerRunning: bool
    var cloud: map<string, Outcome>
    var prints: map<string, nat>
    var lost: map<string, nat>
    var last: map<string, Outcome>
    var unrecorded: set<string>

    constructor (printing: PrintContinuityStore)
      ensures this.printing == printing && !registered && !printWorkerRunning
      ensures cloud == map[] && prints == map[] && lost == map[] && last == map[] && unrecorded == {}
    {
      this.printing := printing;
      registered, printWorkerRunning := false, false;
      cloud, prints, lost, last, unrecorded := map[], map[], map[], map[], {};
    }

    function View(): World
      reads this, printing
    {
      World(printing.rows, Idle, cloud, prints, lost, last, unrecorded)
    }

    /** The executor with the durable mark, then the completion request: the second half of a tick. */
    method Perform(job: Job, a: Answers)
      modifies this`prints, this`lost, this`last, this`unrecorded, this`cloud, printing
      ensures View() == Finish(old(View()).(phase := Announcing(job)), a)
    {
      FinishAnnouncing(View(), job, a);
      var outcome := ExecuteAndMark(job, a);
      AckStagedPrint(job, outcome, a);
    }

    /** The outcome is the one on record, which is a failure when markPrinted throws. */
    method ExecuteAndMark(job: Job, a: Answers) returns (outcome: Outcome)
      modifies this`prints, this`lost, this`last, this`unrecorded, printing
      ensures View().(phase := Completing(job, outcome)) == Performed(old(View()), job, a)
    {
      ghost var rows := printing.rows;
      last, unrecorded := last[job.id := a.outcome], unrecorded - {job.id};
      outcome := Failure;
      if a.outcome.Succeeded? {
        prints := prints[job.id := Count(prints, job.id) + 1];
        if a.marked {
          outcome := Succeeded;
        } else {
          lost, unrecorded := lost[job.id := Count(lost, job.id) + 1], unrecorded + {job.id};
        }
      }
      if outcome.Succeeded? {
        printing.MarkPrinted(job.id);
        SameRows(rows, printing.rows, job.id, PrintedPendingAck, None);
      } else {
        printing.MarkFailed(job.id, "");
        SameRows(rows, printing.rows, job.id, FailedPendingAck, Some(""));
      }
    }

    /** ackStagedPrint: reports the outcome, and acknowledges the row when the cloud confirms. */
    method AckStagedPrint(job: Job, outcome: Outcome, a: Answers)
      modifies this`cloud, printing
      ensures View() == Finish(old(View()).(phase := Completing(job, outcome)), a)
    {
      FinishCompleting(View().(phase := Completing(job, outcome)), a);
      if a.recorded {
        cloud := cloud[job.id := outcome];
        if a.confirmed {
          var rows := printing.rows;
          printing.MarkAcknowledged(job.id);
          SameRows(rows, printing.rows, job.id, Acknowledged, ErrorOf(rows, job.id));
        }
      }
    }

    /** processPrintQueue without a crash; the job id is the primary key of the table. */
    method ProcessPrintQueue(a: Answers)
      modifies this, printing
      ensures !old(registered) || old(printWorkerRunning) ==> View() == old(View())
      ensures old(registered) && !old(printWorkerRunning) ==> View() == Finish(Start(old(View())), a)
      ensures old(registered) && !old(printWorkerRunning) && UniqueJobs(old(printing.rows)) ==>
                TickDone(old(View()), a, View())
      ensures registered == old(registered) && printWorkerRunning == old(printWorkerRunning)
    {
      if !registered || printWorkerRunning {
        return;
      }
      Tick(a);
      if UniqueJobs(old(printing.rows)) {
        TickDoes(old(View()), a);
      }
    }

    /** The part between taking and giving back the worker. */
    method Tick(a: Answers)
      requires registered && !printWorkerRunning
      modifies this, printing
      ensures View() == Finish(Start(old(View())), a)
      ensures registered == old(registered) && printWorkerRunning == old(printWorkerRunning)
    {
      printWorkerRunning := true;
      var staged := printing.Next();
      if staged.Some? && !staged.value.state.Claimed? {
        AckStagedPrint(staged.value.job, if staged.value.state.PrintedPendingAck? then Succeeded else Failure, a);
      } else {
        if staged.None? && a.offer.Some? {
          staged := printing.Stage(a.offer.value);
        }
        if staged.Some? {
          Perform(staged.value.job, a);
        }
      }
      printWorkerRunning := false;
    }
  }

  lemma ChosenStep(w: World, a: Answers)
    requires !w.phase.Claiming? && !w.phase.Idle?
    ensures Honest(w, Choose(w.phase, a)) && !Next(w, Choose(w.phase, a)).phase.Claiming?
    ensures Rank(Next(w, Choose(w.phase, a)).phase) < Rank(w.phase)
  {
  }

  lemma {:induction false} FinishKeeps(w: World, a: Answers)
    requires Inv(w) && !w.phase.Claiming?
    ensures Inv(Finish(w, a))
    decreases Rank(w.phase)
  {
    if !w.phase.Idle? {
      ChosenStep(w, a);
      NextKeeps(w, Choose(w.phase, a));
      FinishKeeps(Next(w, Choose(w.phase, a)), a);
    }
  }

  lemma CompletingBreaks(w: World, a: Answers)
    requires w.phase.Completing? && StateOf(w.rows, w.phase.job.id) == Some(Pending(w.phase.outcome))
    requires var extra := Count(w.prints, w.phase.job.id) - Count(w.lost, w.phase.job.id);
             extra == 2 || (extra == 1 && w.phase.outcome.Failure? && CloudHas(w, w.phase.job.id, Succeeded))
    ensures !Inv(Finish(w, a))
  {
    var id := w.phase.job.id;
    FinishCompleting(w, a);
    StateAfterSet(w.rows, id, Acknowledged, ErrorOf(w.rows, id));
    assert !RowFits(Finish(w, a), id) || !PrintsFit(Finish(w, a), id);
  }

  /** A tick that prints again what the cloud knows as succeeded leaves the invariant for good. */
  lemma ReprintBreaks(w: World, a: Answers)
    requires w.phase.Announcing? && CloudHas(w, w.phase.job.id, Succeeded)
    requires StateOf(w.rows, w.phase.job.id).Some?
    requires Count(w.prints, w.phase.job.id) == 1 + Count(w.lost, w.phase.job.id)
    ensures !Inv(Finish(w, a))
  {
    var job := w.phase.job;
    assert w == w.(phase := Announcing(job));
    FinishAnnouncing(w, job, a);
    StateAfterSet(w.rows, job.id, PrintedPendingAck, None);
    StateAfterSet(w.rows, job.id, FailedPendingAck, Some(""));
    CompletingBreaks(Performed(w, job, a), a);
  }

  /** An undisturbed tick from an idle worker keeps the invariant, whatever it is answered, exactly unless it claims and
      stages a job that the cloud has recorded as succeeded. */
  lemma TickKeepsExactly(w: World, a: Answers)
    requires Inv(w) && w.phase.Idle?
    ensures Inv(Finish(Start(w), a))
       <==> NextRow(w.rows).Some? || a.offer.None? || Harmless(w, a.offer.value)
  {
    BeginKeeps(w);
    var w1 := Start(w);
    if w1.phase.Claiming? {
      var w2 := Next(w1, ClaimReply(a.offer));
      if a.offer.None? || Harmless(w, a.offer.value) {
        NextKeeps(w1, ClaimReply(a.offer));
        FinishKeeps(w2, a);
      } else {
        StateAfterStage(w.rows, a.offer.value);
        assert PrintsFit(w, a.offer.value.id);
        ReprintBreaks(w2, a);
      }
    } else {
      FinishKeeps(w1, a);
    }
  }
}
