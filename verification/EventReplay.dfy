/** cloud-client.js, syncPending: replaying the event log to a cloud that may refuse or not answer. */
module EventReplay {
  import opened Options
  import opened CanonicalJson
  import opened EdgeStore

  /** What one replay request came back with: 2xx, one of 400/409/422, or anything else (including no answer). */
  datatype Reply = Ok | Refused(message: string) | Unavailable(message: string)

  /** SELECT * FROM events WHERE cloud_state='PENDING' ORDER BY sequence ASC LIMIT ? */
  function PendingEvents(events: seq<Event>, limit: nat): seq<Event> {
    if events == [] || limit == 0 then []
    else if events[0].cloudState.Pending? then [events[0]] + PendingEvents(events[1..], limit - 1)
    else PendingEvents(events[1..], limit)
  }

  predicate Settled(e: Event) {
    !e.cloudState.Pending?
  }

  /** The events the cloud has answered for good form a prefix of the global sequence. */
  ghost predicate PrefixSettled(events: seq<Event>) {
    forall i, j | 0 <= i < j < |events| :: Settled(events[j]) ==> Settled(events[i])
  }

  function SettledCount(events: seq<Event>): (n: nat)
    ensures n <= |events| && (forall i | 0 <= i < n :: Settled(events[i])) && (n < |events| ==> !Settled(events[n]))
  {
    if events == [] || !Settled(events[0]) then 0 else 1 + SettledCount(events[1..])
  }

  function MarkReply(events: seq<Event>, eventId: string, reply: Reply): seq<Event> {
    match reply
    case Ok => Mark(events, eventId, Some(Synced), None)
    case Refused(message) => Mark(events, eventId, Some(Conflict), Some(message))
    case Unavailable(message) => Mark(events, eventId, None, Some(message))
  }

  lemma TailSlice<T>(s: seq<T>, low: nat, high: nat, next: nat)
    requires low <= high && next == high + 1 <= |s|
    ensures s[1..][low..high] == s[low + 1..next]
  {
  }

  lemma TailSettled(events: seq<Event>)
    requires PrefixSettled(events) && events != []
    ensures PrefixSettled(events[1..])
    ensures !Settled(events[0]) ==> SettledCount(events[1..]) == 0
  {
    var tail := events[1..];
    forall i, j | 0 <= i < j < |tail| && Settled(tail[j]) ensures Settled(tail[i]) {
      assert tail[j] == events[j + 1] && tail[i] == events[i + 1];
    }
    if tail != [] {
      assert tail[0] == events[1];
    }
  }

  /** With a settled prefix, the pending rows are the events that follow it. */
  lemma {:induction false} PendingIsSuffix(events: seq<Event>, limit: nat)
    requires PrefixSettled(events)
    ensures var p, n := SettledCount(events), |PendingEvents(events, limit)|;
            n <= limit && p + n <= |events| && (n < limit ==> p + n == |events|)
            && PendingEvents(events, limit) == events[p..p + n]
    decreases |events|
  {
    hide PrefixSettled;
    if events != [] && limit > 0 {
      TailSettled(events);
      if events[0].cloudState.Pending? {
        PendingIsSuffix(events[1..], limit - 1);
        var n := |PendingEvents(events[1..], limit - 1)|;
        TailSlice(events, 0, n, n + 1);
        assert events[0..1 + n] == [events[0]] + events[1..][0..n];
      } else {
        PendingIsSuffix(events[1..], limit);
        var p, n := SettledCount(events[1..]), |PendingEvents(events[1..], limit)|;
        TailSlice(events, p, p + n, 1 + p + n);
      }
    }
  }

  lemma PendingRow(events: seq<Event>, limit: nat, k: nat)
    requires PrefixSettled(events) && k < |PendingEvents(events, limit)|
    ensures SettledCount(events) + k < |events|
    ensures PendingEvents(events, limit)[k] == events[SettledCount(events) + k]
  {
    PendingIsSuffix(events, limit);
  }

  ghost predicate UniqueIds(events: seq<Event>) {
    forall i, j | 0 <= i < j < |events| :: events[i].fact.eventId != events[j].fact.eventId
  }

  /** One attempt more, and the answer: an OK clears the error, any other answer leaves its message, and a missing one
      leaves the state. */
  predicate HasReply(before: Event, after: Event, reply: Reply) {
    after.fact == before.fact && after.sequence == before.sequence && after.cloudAttempts == before.cloudAttempts + 1
    && match reply
       case Ok => after.cloudState == Synced && after.cloudError == None
       case Refused(message) => after.cloudState == Conflict && after.cloudError == Some(message)
       case Unavailable(message) => after.cloudState == before.cloudState && after.cloudError == Some(message)
  }

  ghost predicate MarkedAt(before: seq<Event>, after: seq<Event>, i: nat, reply: Reply) {
    |after| == |before| && i < |before|
    && (forall j | 0 <= j < |before| && j != i :: after[j] == before[j])
    && HasReply(before[i], after[i], reply)
  }

  lemma MarkReplyEffect(events: seq<Event>, i: nat, reply: Reply)
    requires UniqueIds(events) && i < |events|
    ensures MarkedAt(events, MarkReply(events, events[i].fact.eventId, reply), i, reply)
  {
    var r := MarkReply(events, events[i].fact.eventId, reply);
    forall j | 0 <= j < |events| && j != i ensures r[j] == events[j] {
      assert events[j].fact.eventId != events[i].fact.eventId;
    }
  }

  lemma MarkReplyKeepsAgreement(sha256: string -> string, t: Tables, eventId: string, reply: Reply)
    requires Inv(sha256, t)
    ensures Inv(sha256, Tables(MarkReply(t.events, eventId, reply), t.aggregates))
  {
    match reply {
      case Ok => MarkKeepsAgreement(sha256, t, eventId, Some(Synced), None);
      case Refused(message) => MarkKeepsAgreement(sha256, t, eventId, Some(Conflict), Some(message));
      case Unavailable(message) => MarkKeepsAgreement(sha256, t, eventId, None, Some(message));
    }
  }

  // ---------- Interleaved runs ----------

  /** One running syncPending: the rows it loaded and how many it has had answered. */
  datatype Run = Run(snapshot: seq<Event>, pos: nat)

  datatype World = World(tables: Tables, runs: seq<Run>)

  datatype Step =
    | LanAppend(input: EventInput, now: string)
    | StartRun(limit: nat)
    | Answer(run: nat, reply: Reply)

  /** A run stops at a missing answer. */
  function AfterReply(r: Run, reply: Reply): Run
    requires r.pos < |r.snapshot|
  {
    if reply.Unavailable? then Run(r.snapshot[..r.pos], r.pos) else Run(r.snapshot, r.pos + 1)
  }

  function Next(sha256: string -> string, w: World, step: Step): World {
    match step
    case LanAppend(input, now) => w.(tables := Append(sha256, w.tables, input, now).0)
    case StartRun(limit) => w.(runs := w.runs + [Run(PendingEvents(w.tables.events, limit), 0)])
    case Answer(run, reply) =>
      if run < |w.runs| && w.runs[run].pos < |w.runs[run].snapshot| then
        var r := w.runs[run];
        var events := MarkReply(w.tables.events, r.snapshot[r.pos].fact.eventId, reply);
        World(Tables(events, w.tables.aggregates), w.runs[run := AfterReply(r, reply)])
      else w
  }

  function Execute(sha256: string -> string, steps: seq<Step>): World {
    if steps == [] then World(Tables([], map[]), [])
        else Next(sha256, Execute(sha256, steps[..|steps| - 1]), steps[|steps| - 1])
  }

  /** A run's rows are consecutive in the log, and everything up to its position is settled. */
  ghost predicate RunInv(events: seq<Event>, r: Run) {
    r.pos <= |r.snapshot|
    && (r.snapshot != [] ==>
          var first := r.snapshot[0].sequence;
          first >= 1 && first - 1 + |r.snapshot| <= |events|
          && (forall k | 0 <= k < |r.snapshot| :: r.snapshot[k].fact == events[first - 1 + k].fact)
          && (forall i | 0 <= i < first - 1 + r.pos :: Settled(events[i])))
  }

  ghost predicate WorldInv(sha256: string -> string, w: World) {
    Inv(sha256, w.tables) && PrefixSettled(w.tables.events)
    && forall i | 0 <= i < |w.runs| :: RunInv(w.tables.events, w.runs[i])
  }

  ghost predicate StepOk(step: Step) {
    step.LanAppend? ==> WellFormed(step.input.payload)
  }

  lemma AppendGrows(sha256: string -> string, t: Tables, input: EventInput, now: string)
    ensures var events := Append(sha256, t, input, now).0.events;
            events == t.events || (exists e: Event :: events == t.events + [e] && e.cloudState.Pending?)
  {
    if Append(sha256, t, input, now).1.Accepted? {
      AcceptedShape(sha256, t, input, now);
    }
  }

  lemma StartKeeps(events: seq<Event>, limit: nat)
    requires PrefixSettled(events) && forall i | 0 <= i < |events| :: events[i].sequence == i + 1
    ensures RunInv(events, Run(PendingEvents(events, limit), 0))
  {
    PendingIsSuffix(events, limit);
  }

  /** What marking leaves alone: the facts and numbers of the rows, and that settled rows are settled. */
  ghost predicate OnlyMarks(before: seq<Event>, after: seq<Event>) {
    |after| == |before|
    && forall i | 0 <= i < |before| ::
         after[i].fact == before[i].fact && after[i].sequence == before[i].sequence
             && (Settled(before[i]) ==> Settled(after[i]))
  }

  lemma MarkedOnly(events: seq<Event>, events': seq<Event>, at: nat, reply: Reply)
    requires PrefixSettled(events) && MarkedAt(events, events', at, reply)
    requires forall i | 0 <= i < at :: Settled(events[i])
    ensures OnlyMarks(events, events') && PrefixSettled(events')
    ensures at < |events'| && (!reply.Unavailable? ==> Settled(events'[at]))
  {
    assert forall i | 0 <= i < |events| :: Settled(events[i]) ==> Settled(events'[i]);
  }

  lemma AnswerRun(events: seq<Event>, events': seq<Event>, r: Run, reply: Reply)
    requires PrefixSettled(events) && RunInv(events, r) && r.pos < |r.snapshot|
    requires MarkedAt(events, events', r.snapshot[0].sequence - 1 + r.pos, reply)
    ensures OnlyMarks(events, events') && PrefixSettled(events')
    ensures RunInv(events', AfterReply(r, reply))
  {
    hide MarkedAt, PrefixSettled;
    MarkedOnly(events, events', r.snapshot[0].sequence - 1 + r.pos, reply);
  }

  lemma RunInvStays(before: seq<Event>, after: seq<Event>, r: Run)
    requires OnlyMarks(before, after) && RunInv(before, r)
    ensures RunInv(after, r)
  {
  }

  lemma AnswerOne(events: seq<Event>, r: Run, reply: Reply)
    requires UniqueIds(events) && PrefixSettled(events) && RunInv(events, r) && r.pos < |r.snapshot|
    ensures var events' := MarkReply(events, r.snapshot[r.pos].fact.eventId, reply);
            OnlyMarks(events, events') && PrefixSettled(events') && RunInv(events', AfterReply(r, reply))
  {
    var at := r.snapshot[0].sequence - 1 + r.pos;
    assert r.snapshot[r.pos].fact == events[at].fact;
    MarkReplyEffect(events, at, reply);
    AnswerRun(events, MarkReply(events, r.snapshot[r.pos].fact.eventId, reply), r, reply);
  }

  lemma AnswerKeeps(sha256: string -> string, w: World, run: nat, reply: Reply)
    requires WorldInv(sha256, w)
    requires run < |w.runs| && w.runs[run].pos < |w.runs[run].snapshot|
    ensures WorldInv(sha256, Next(sha256, w, Answer(run, reply)))
  {
    var r := w.runs[run];
    MarkReplyKeepsAgreement(sha256, w.tables, r.snapshot[r.pos].fact.eventId, reply);
    AnswerOne(w.tables.events, r, reply);
    var events' := MarkReply(w.tables.events, r.snapshot[r.pos].fact.eventId, reply);
    RunsStay(w.tables.events, events', w.runs, run, AfterReply(r, reply), w.runs[run := AfterReply(r, reply)]);
  }

  lemma RunsStay(before: seq<Event>, after: seq<Event>, runs: seq<Run>, run: nat, r: Run, runs': seq<Run>)
    requires OnlyMarks(before, after) && run < |runs| && RunInv(after, r) && runs' == runs[run := r]
    requires forall i | 0 <= i < |runs| :: RunInv(before, runs[i])
    ensures forall i | 0 <= i < |runs'| :: RunInv(after, runs'[i])
  {
    forall i | 0 <= i < |runs'| ensures RunInv(after, runs'[i]) {
      if i != run {
        RunInvStays(before, after, runs[i]);
      }
    }
  }

  lemma GrownRunInv(before: seq<Event>, after: seq<Event>, r: Run)
    requires RunInv(before, r) && before <= after
    ensures RunInv(after, r)
  {
  }

  lemma AppendStepKeeps(sha256: string -> string, w: World, input: EventInput, now: string)
    requires WorldInv(sha256, w) && WellFormed(input.payload)
    ensures WorldInv(sha256, Next(sha256, w, LanAppend(input, now)))
  {
    AppendKeepsAgreement(sha256, w.tables, input, now);
    AppendGrows(sha256, w.tables, input, now);
    var events' := Append(sha256, w.tables, input, now).0.events;
    forall i | 0 <= i < |w.runs| ensures RunInv(events', w.runs[i]) {
      GrownRunInv(w.tables.events, events', w.runs[i]);
    }
  }

  lemma NextKeeps(sha256: string -> string, w: World, step: Step)
    requires WorldInv(sha256, w) && StepOk(step)
    ensures WorldInv(sha256, Next(sha256, w, step))
  {
    match step {
      case LanAppend(input, now) => AppendStepKeeps(sha256, w, input, now);
      case StartRun(limit) => StartKeeps(w.tables.events, limit);
      case Answer(run, reply) =>
        if run < |w.runs| && w.runs[run].pos < |w.runs[run].snapshot| {
          AnswerKeeps(sha256, w, run, reply);
        }
    }
  }

  /** However appends and any number of overlapping runs interleave, settled events form a prefix of the log
      and log and table agree. */
  lemma {:induction false} ReplayOrder(sha256: string -> string, steps: seq<Step>)
    requires forall i | 0 <= i < |steps| :: StepOk(steps[i])
    ensures WorldInv(sha256, Execute(sha256, steps))
    ensures PrefixSettled(Execute(sha256, steps).tables.events)
  {
    if steps != [] {
      ReplayOrder(sha256, steps[..|steps| - 1]);
      NextKeeps(sha256, Execute(sha256, steps[..|steps| - 1]), steps[|steps| - 1]);
    }
  }

  /** No step takes an event back to pending, or rewrites what was appended. */
  lemma SettledStays(sha256: string -> string, w: World, step: Step, i: nat)
    requires WorldInv(sha256, w) && StepOk(step) && i < |w.tables.events|
    ensures i < |Next(sha256, w, step).tables.events|
    ensures Next(sha256, w, step).tables.events[i].fact == w.tables.events[i].fact
    ensures Settled(w.tables.events[i]) ==> Settled(Next(sha256, w, step).tables.events[i])
  {
    match step {
      case LanAppend(input, now) => AppendGrows(sha256, w.tables, input, now);
      case StartRun(_) =>
      case Answer(run, reply) =>
        if run < |w.runs| && w.runs[run].pos < |w.runs[run].snapshot| {
          var r := w.runs[run];
          assert RunInv(w.tables.events, r);
          MarkReplyEffect(w.tables.events, r.snapshot[0].sequence - 1 + r.pos, reply);
        }
    }
  }

  // ---------- One run ----------

  /** How many of the first n answers are OK. */
  function Oks(cloud: nat -> Reply, n: nat): nat {
    if n == 0 then 0 else Oks(cloud, n - 1) + if cloud(n - 1).Ok? then 1 else 0
  }

  lemma {:induction false} OksAreCounted(cloud: nat -> Reply, n: nat)
    ensures Oks(cloud, n) == |set k: nat | k < n && cloud(k).Ok?|
  {
    if n == 0 {
      assert (set k: nat | k < n && cloud(k).Ok?) == {};
    } else {
      OksAreCounted(cloud, n - 1);
      OneMoreOk(cloud, n - 1, n);
    }
  }

  lemma OneMoreOk(cloud: nat -> Reply, n: nat, next: nat)
    requires next == n + 1
    ensures var before, after := set k: nat | k < n && cloud(k).Ok?, set k: nat | k < next && cloud(k).Ok?;
            |after| == |before| + if cloud(n).Ok? then 1 else 0
  {
    var before, after := set k: nat | k < n && cloud(k).Ok?, set k: nat | k < next && cloud(k).Ok?;
    assert after == if cloud(n).Ok? then before + {n} else before;
  }

  /** The first n rows of the batch that starts at row first carry the cloud's answers; the others are as before. */
  ghost predicate Answered(before: seq<Event>, after: seq<Event>, first: nat, n: nat, cloud: nat -> Reply) {
    |after| == |before|
    && forall i | 0 <= i < |before| ::
      if first <= i < first + n then HasReply(before[i], after[i], cloud(i - first)) else after[i] == before[i]
  }

  ghost predicate AllAnswer(cloud: nat -> Reply, n: nat) {
    forall j | 0 <= j < n :: !cloud(j).Unavailable?
  }

  lemma AnsweredNext(before: seq<Event>, after: seq<Event>, first: nat, k: nat, at: nat, next: nat, eventId: string,
                     cloud: nat -> Reply)
    requires UniqueIds(before) && Answered(before, after, first, k, cloud)
    requires at == first + k < |before| && eventId == before[at].fact.eventId && next == k + 1
    ensures Answered(before, MarkReply(after, eventId, cloud(k)), first, next, cloud)
  {
    assert UniqueIds(after) by {
      forall i, j | 0 <= i < j < |after| ensures after[i].fact.eventId != after[j].fact.eventId {
        assert before[i].fact.eventId != before[j].fact.eventId;
      }
    }
    MarkReplyEffect(after, at, cloud(k));
  }

  /** What a run has asked for when it ends after so many answers: the missing answer counts. */
  function Asked(done: nat, batch: nat): nat {
    if done < batch then done + 1 else done
  }

  lemma AnsweredPrefix(before: seq<Event>, after: seq<Event>, done: nat, batch: nat, cloud: nat -> Reply)
    requires PrefixSettled(before) && Answered(before, after, SettledCount(before), Asked(done, batch), cloud)
    requires AllAnswer(cloud, done) && (done < batch ==> cloud(done).Unavailable?)
    ensures PrefixSettled(after)
  {
    var first := SettledCount(before);
    forall i | 0 <= i < |before| ensures Settled(after[i]) <==> i < first + done {
      assert i >= first ==> !Settled(before[i]);
    }
  }

  lemma AnsweredFacts(before: seq<Event>, after: seq<Event>, first: nat, n: nat, cloud: nat -> Reply)
    requires Answered(before, after, first, n, cloud)
    ensures |after| == |before|
    ensures forall i | 0 <= i < |before| ::
      after[i].fact == before[i].fact && after[i].sequence == before[i].sequence
  {
  }

  /** A whole run: it settles the leading pending rows, one per answer, and stops early only at a missing answer, which
      it notes on its row. */
  ghost predicate Replayed(before: seq<Event>, after: seq<Event>, limit: nat, cloud: nat -> Reply, synced: nat,
      conflicts: nat)
  {
    var done, batch := synced + conflicts, |PendingEvents(before, limit)|;
    done <= batch && synced == Oks(cloud, done) && AllAnswer(cloud, done)
    && Answered(before, after, SettledCount(before), Asked(done, batch), cloud)
    && (done < batch ==> cloud(done).Unavailable?)
  }

  lemma RunKeeps(sha256: string -> string, before: Tables, after: seq<Event>, limit: nat, cloud: nat -> Reply,
      synced: nat, conflicts: nat)
    requires Inv(sha256, before) && PrefixSettled(before.events)
    requires Replayed(before.events, after, limit, cloud, synced, conflicts)
    ensures Inv(sha256, Tables(after, before.aggregates)) && PrefixSettled(after)
  {
    var done, batch := synced + conflicts, |PendingEvents(before.events, limit)|;
    AnsweredPrefix(before.events, after, done, batch, cloud);
    AnsweredFacts(before.events, after, SettledCount(before.events), Asked(done, batch), cloud);
    SameFactsKeepAgreement(sha256, before, after);
  }

  /** The state of a run after k answers. */
  ghost predicate Progress(before: seq<Event>, after: seq<Event>, limit: nat, cloud: nat -> Reply, k: nat,
      synced: nat, conflicts: nat)
  {
    k == synced + conflicts && k <= |PendingEvents(before, limit)| && synced == Oks(cloud, k) && AllAnswer(cloud, k)
    && Answered(before, after, SettledCount(before), k, cloud)
  }

  lemma AnsweredReply(before: seq<Event>, after: seq<Event>, limit: nat, cloud: nat -> Reply, k: nat, next: nat,
      eventId: string)
    requires UniqueIds(before) && PrefixSettled(before) && k < |PendingEvents(before, limit)|
    requires Answered(before, after, SettledCount(before), k, cloud) && next == k + 1
    requires eventId == PendingEvents(before, limit)[k].fact.eventId
    ensures Answered(before, MarkReply(after, eventId, cloud(k)), SettledCount(before), next, cloud)
  {
    PendingRow(before, limit, k);
    AnsweredNext(before, after, SettledCount(before), k, SettledCount(before) + k, next, eventId, cloud);
  }

  lemma MakeProgress(before: seq<Event>, after: seq<Event>, limit: nat, cloud: nat -> Reply, first: nat, k: nat,
      synced: nat, conflicts: nat)
    requires first == SettledCount(before) && Answered(before, after, first, k, cloud) && AllAnswer(cloud, k)
    requires k == synced + conflicts && k <= |PendingEvents(before, limit)| && synced == Oks(cloud, k)
    ensures Progress(before, after, limit, cloud, k, synced, conflicts)
  {
  }

  lemma RunStops(before: seq<Event>, after: seq<Event>, limit: nat, cloud: nat -> Reply, k: nat, next: nat, synced: nat,
      conflicts: nat)
    requires k == synced + conflicts && k < |PendingEvents(before, limit)| && synced == Oks(cloud, k)
    requires AllAnswer(cloud, k) && cloud(k).Unavailable? && next == k + 1
    requires Answered(before, after, SettledCount(before), next, cloud)
    ensures Replayed(before, after, limit, cloud, synced, conflicts)
  {
  }

  lemma RunEnds(before: seq<Event>, after: seq<Event>, limit: nat, cloud: nat -> Reply, k: nat, synced: nat,
      conflicts: nat)
    requires Progress(before, after, limit, cloud, k, synced, conflicts) && k == |PendingEvents(before, limit)|
    ensures Replayed(before, after, limit, cloud, synced, conflicts)
  {
  }

  /** Marking has one outcome. */
  lemma SameMarks(before: seq<Event>, after: seq<Event>, eventId: string, state: Option<CloudState>,
      error: Option<string>)
    requires OnlyMarked(eventId, before, after)
    requires forall i | 0 <= i < |after| && after[i].fact.eventId == eventId ::
               after[i].cloudState == state.GetOr(before[i].cloudState) && after[i].cloudError == error
    ensures after == Mark(before, eventId, state, error)
  {
    var marked := Mark(before, eventId, state, error);
    forall i | 0 <= i < |before| ensures after[i] == marked[i] {
      assert after[i].cloudAttempts == marked[i].cloudAttempts;
    }
  }

  class CloudClient {
    const store: EdgeStore
    var registered: bool

    constructor (store: EdgeStore)
      ensures this.store == store && !registered
    {
      this.store := store;
      registered := false;
    }

    method RecordReply(event: Event, reply: Reply)
      modifies store
      ensures store.aggregates == old(store.aggregates)
      ensures store.events == MarkReply(old(store.events), event.fact.eventId, reply)
    {
      ghost var before := store.events;
      match reply {
        case Ok =>
          store.MarkCloudSynced(event.fact.eventId);
          SameMarks(before, store.events, event.fact.eventId, Some(Synced), None);
        case Refused(message) =>
          store.MarkCloudConflict(event.fact.eventId, message);
          SameMarks(before, store.events, event.fact.eventId, Some(Conflict), Some(message));
        case Unavailable(message) =>
          store.MarkCloudAttemptFailed(event.fact.eventId, message);
          SameMarks(before, store.events, event.fact.eventId, None, Some(message));
      }
    }

    /** syncPending with nothing else running; cloud(k) is the answer to the k-th request. */
    method SyncPending(limit: nat, cloud: nat -> Reply) returns (synced: nat, conflicts: nat, pending: nat)
      requires store.Valid() && PrefixSettled(store.events)
      modifies store
      ensures store.Valid() && PrefixSettled(store.events)
      ensures store.aggregates == old(store.aggregates)
      ensures !registered ==> synced == conflicts == pending == 0 && store.events == old(store.events)
      ensures registered ==> Replayed(old(store.events), store.events, limit, cloud, synced, conflicts)
      ensures registered ==> pending == |PendingEvents(store.events, limit)|
    {
      if !registered {
        return 0, 0, 0;
      }
      synced, conflicts := ReplayPending(limit, cloud);
      RunKeeps(store.sha256, old(store.View()), store.events, limit, cloud, synced, conflicts);
      pending := |PendingEvents(store.events, limit)|;
    }

    method ReplayPending(limit: nat, cloud: nat -> Reply) returns (synced: nat, conflicts: nat)
      requires UniqueIds(store.events) && PrefixSettled(store.events)
      modifies store
      ensures store.aggregates == old(store.aggregates)
      ensures Replayed(old(store.events), store.events, limit, cloud, synced, conflicts)
    {
      synced, conflicts := 0, 0;
      ghost var before := store.events;
      var batch := PendingEvents(store.events, limit);
      var k := 0;
      while k < |batch|
        invariant 0 <= k <= |batch|
        invariant store.aggregates == old(store.aggregates)
        invariant Progress(before, store.events, limit, cloud, k, synced, conflicts)
      {
        var next := k + 1;
        AnsweredReply(before, store.events, limit, cloud, k, next, batch[k].fact.eventId);
        RecordReply(batch[k], cloud(k));
        if cloud(k).Unavailable? {
          RunStops(before, store.events, limit, cloud, k, next, synced, conflicts);
          return;
        }
        synced := if cloud(k).Ok? then synced + 1 else synced;
        k := next;
        conflicts := k - synced;
        MakeProgress(before, store.events, limit, cloud, SettledCount(before), k, synced, conflicts);
      }
      RunEnds(before, store.events, limit, cloud, k, synced, conflicts);
    }
  }
}
