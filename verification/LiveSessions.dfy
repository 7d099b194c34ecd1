/** continuity.js: when two cached sessions can be live on one resource. */
module LiveSessions {
  import opened Options
  import opened Text
  import opened ContinuityData
  import opened Projection
  import opened Continuity
  import opened SampleHub
  import EdgeStore

  /** A live session holds the resource its payload names, whatever type or padding the name has. */
  predicate Holds(row: CacheRow, resource: string) {
    Live(row.payload) && resource != "" && Required(row.payload, ResourceId) == resource
  }

  /** At most one live cached session per resource. */
  ghost predicate OneLive(cache: Cache) {
    forall a, b, resource |
      (Session, a) in cache && (Session, b) in cache && Holds(cache[(Session, a)], resource)
          && Holds(cache[(Session, b)], resource) :: a == b
  }

  /** The resource id is a text without padding, so that the comparison in the start check sees it. */
  predicate PlainResource(p: Payload) {
    ResourceId in p && p[ResourceId].Str? && Trim(p[ResourceId].s) == p[ResourceId].s
  }

  ghost predicate AllPlain(cache: Cache) {
    forall id | (Session, id) in cache :: PlainResource(cache[(Session, id)].payload)
  }

  ghost predicate Sound(cache: Cache) {
    OneLive(cache) && AllPlain(cache)
  }

  lemma OccupiedWhenHeld(cache: Cache, id: string, resource: string)
    requires AllPlain(cache) && (Session, id) in cache && Holds(cache[(Session, id)], resource)
    ensures Occupied(cache, resource)
  {
    assert PlainResource(cache[(Session, id)].payload);
  }

  /** Starting a session on a plainly named resource keeps one live session per resource, whatever else the payload
      says. */
  lemma StartKeeps(cache: Cache, aggregateId: string, payload: Payload, occurredAt: string)
    requires Sound(cache) && PlainResource(payload)
    ensures Sound(StartSession(cache, aggregateId, payload, occurredAt).0)
  {
    var (cache', fault) := StartSession(cache, aggregateId, payload, occurredAt);
    if fault.None? {
      var resourceId := Required(payload, ResourceId);
      assert cache'[(Session, aggregateId)].payload[ResourceId] == payload[ResourceId];
      forall a, b, resource |
        (Session, a) in cache' && (Session, b) in cache' && Holds(cache'[(Session, a)], resource)
            && Holds(cache'[(Session, b)], resource)
        ensures a == b
      {
        if a != b && (a == aggregateId || b == aggregateId) {
          var other := if a == aggregateId then b else a;
          assert resource == resourceId;
          OccupiedWhenHeld(cache, other, resource);
        }
      }
    }
  }

  /** Besides, the payload is laid over the new session, so it may say that the session is not live. */
  predicate StartsLive(payload: Payload) {
    Status in payload ==> Live(payload)
  }

  lemma StartShape(cache: Cache, id: string, payload: Payload, occurredAt: string)
    requires StartSession(cache, id, payload, occurredAt).1.None?
    ensures var cache' := StartSession(cache, id, payload, occurredAt).0;
            (Session, id) in cache' && cache' == cache[(Session, id) := cache'[(Session, id)]]
            && (Live(cache'[(Session, id)].payload) <==> StartsLive(payload))
            && Required(payload, ResourceId) != ""
            && Required(cache'[(Session, id)].payload, ResourceId) == Required(payload, ResourceId)
            && ResourceId in payload && ResourceId in cache'[(Session, id)].payload
            && cache'[(Session, id)].payload[ResourceId] == payload[ResourceId]
  {
  }

  /** An accepted start keeps one live session per resource exactly when it does not make its session live or nobody
      else is live on its resource, padding aside. */
  lemma StartKeepsExactly(cache: Cache, id: string, payload: Payload, occurredAt: string)
    requires OneLive(cache) && StartSession(cache, id, payload, occurredAt).1.None?
    ensures OneLive(StartSession(cache, id, payload, occurredAt).0) <==>
              !StartsLive(payload) || !HeldByOther(cache, id, Required(payload, ResourceId))
  {
    StartShape(cache, id, payload, occurredAt);
    var cache' := StartSession(cache, id, payload, occurredAt).0;
    OverwriteKeepsExactly(cache, cache', id, Required(payload, ResourceId));
  }

  /** Replacing or adding the row of one session. */
  lemma OverwriteKeepsExactly(cache: Cache, cache': Cache, id: string, resource: string)
    requires OneLive(cache) && (Session, id) in cache' && cache' == cache[(Session, id) := cache'[(Session, id)]]
    requires resource != "" && Required(cache'[(Session, id)].payload, ResourceId) == resource
    ensures OneLive(cache') <==> !Live(cache'[(Session, id)].payload) || !HeldByOther(cache, id, resource)
  {
    if Live(cache'[(Session, id)].payload) && HeldByOther(cache, id, resource) {
      var other :| other != id && (Session, other) in cache && Holds(cache[(Session, other)], resource);
      assert Holds(cache'[(Session, id)], resource) && Holds(cache'[(Session, other)], resource);
    }
    if !OneLive(cache') {
      var a, b, r :| (Session, a) in cache' && (Session, b) in cache'
                     && Holds(cache'[(Session, a)], r) && Holds(cache'[(Session, b)], r) && a != b;
      var other := if a == id then b else a;
      assert Holds(cache[(Session, other)], resource);
    }
  }

  ghost predicate HeldByOther(cache: Cache, id: string, resource: string) {
    exists other :: other != id && (Session, other) in cache && Holds(cache[(Session, other)], resource)
  }

  lemma MoveShape(cache: Cache, op: Operation, id: string, expected: Option<int>, occurredAt: string)
    requires MoveSession(cache, op, id, expected, occurredAt).1.None?
    requires op.SessionPause? || op.SessionResume? || op.SessionEnd?
    ensures (Session, id) in cache
    ensures var cache' := MoveSession(cache, op, id, expected, occurredAt).0;
            (Session, id) in cache' && cache' == cache[(Session, id) := cache'[(Session, id)]]
            && (Live(cache'[(Session, id)].payload) <==> !op.SessionEnd?)
            && (ResourceId in cache'[(Session, id)].payload <==> ResourceId in cache[(Session, id)].payload)
            && (ResourceId in cache[(Session, id)].payload ==>
                  cache'[(Session, id)].payload[ResourceId] == cache[(Session, id)].payload[ResourceId])
  {
    assert FINISHED[0] != ACTIVE[0] && FINISHED[0] != PAUSED[0];
  }

  /** An accepted pause or resume keeps one live session per resource exactly when its session was live already or
      nobody else is live on its resource; ending a session always does. */
  lemma MoveKeepsExactly(cache: Cache, op: Operation, id: string, expected: Option<int>, occurredAt: string)
    requires Sound(cache) && (op.SessionPause? || op.SessionResume? || op.SessionEnd?)
    requires MoveSession(cache, op, id, expected, occurredAt).1.None?
    ensures (Session, id) in cache && AllPlain(MoveSession(cache, op, id, expected, occurredAt).0)
    ensures var row := cache[(Session, id)];
            OneLive(MoveSession(cache, op, id, expected, occurredAt).0) <==>
              op.SessionEnd? || Live(row.payload) || !HeldByOther(cache, id, Required(row.payload, ResourceId))
  {
    MoveShape(cache, op, id, expected, occurredAt);
    var cache' := MoveSession(cache, op, id, expected, occurredAt).0;
    var row, row' := cache[(Session, id)], cache'[(Session, id)];
    var resource := Required(row.payload, ResourceId);
    assert Required(row'.payload, ResourceId) == resource;
    if !op.SessionEnd? && !Live(row.payload) && HeldByOther(cache, id, resource) {
      var other :| other != id && (Session, other) in cache && Holds(cache[(Session, other)], resource);
      assert Holds(cache'[(Session, id)], resource) && Holds(cache'[(Session, other)], resource);
    } else {
      forall a, b, r | (Session, a) in cache' && (Session, b) in cache' && Holds(cache'[(Session, a)], r)
              && Holds(cache'[(Session, b)], r)
        ensures a == b
      {
        if a != b && (a == id || b == id) {
          var other := if a == id then b else a;
          assert r == resource && Holds(cache[(Session, other)], r);
          assert Live(row.payload) ==> Holds(row, r);
        }
      }
    }
  }

  // ---------- Snapshots ----------

  /** The cached row of a key that inserting added comes from some row with that id. */
  ghost predicate FromRows(kind: Kind, rows: seq<Payload>, key: (Kind, string), row: CacheRow) {
    key.0 == kind && exists i | 0 <= i < |rows| :: Required(rows[i], Id) == key.1 && row == SnapshotRow(rows[i])
  }

  lemma FromMoreRows(kind: Kind, rows: seq<Payload>, key: (Kind, string), row: CacheRow)
    requires rows != [] && FromRows(kind, rows[..|rows| - 1], key, row)
    ensures FromRows(kind, rows, key, row)
  {
    var front := rows[..|rows| - 1];
    var i :| 0 <= i < |front| && Required(front[i], Id) == key.1 && row == SnapshotRow(front[i]);
    assert rows[i] == front[i];
  }

  lemma {:induction false} InsertedRows(cache: Cache, kind: Kind, rows: seq<Payload>)
    requires InsertRows(cache, kind, rows).Loaded?
    ensures var r := InsertRows(cache, kind, rows).cache;
            (forall k | k in cache :: k in r && r[k] == cache[k])
            && (forall k | k in r && k !in cache :: FromRows(kind, rows, k, r[k]))
  {
    if rows != [] {
      InsertedRows(cache, kind, rows[..|rows| - 1]);
      var before := InsertRows(cache, kind, rows[..|rows| - 1]).cache;
      var last := rows[|rows| - 1];
      var r := InsertRow(before, kind, last).cache;
      forall k | k in r && k !in cache ensures FromRows(kind, rows, k, r[k]) {
        if k in before {
          FromMoreRows(kind, rows, k, before[k]);
        } else {
          assert k == (kind, Required(last, Id)) && r[k] == SnapshotRow(rows[|rows| - 1]);
        }
      }
    }
  }

  /** The cloud's own rule for the sessions it sends: plain resource ids, no two live rows on one resource. */
  ghost predicate GoodSnapshot(s: Snapshot) {
    var rows := RowsOf(s, Session);
    (forall i | 0 <= i < |rows| :: PlainResource(rows[i]))
    && (forall i, j, resource | 0 <= i < |rows| && 0 <= j < |rows| && Holds(SnapshotRow(rows[i]), resource)
            && Holds(SnapshotRow(rows[j]), resource) ::
          i == j)
  }

  /** Loading a good list of sessions into a cache without sessions gives a sound cache. */
  lemma LoadedSessionsSound(cache: Cache, s: Snapshot)
    requires GoodSnapshot(s) && (forall id :: (Session, id) !in cache)
    requires InsertRows(cache, Session, RowsOf(s, Session)).Loaded?
    ensures Sound(InsertRows(cache, Session, RowsOf(s, Session)).cache)
  {
    var rows := RowsOf(s, Session);
    InsertedRows(cache, Session, rows);
    var r := InsertRows(cache, Session, rows).cache;
    forall id | (Session, id) in r
      ensures FromRows(Session, rows, (Session, id), r[(Session, id)])
    {
      assert (Session, id) !in cache;
    }
    forall a, b, resource | (Session, a) in r && (Session, b) in r && Holds(r[(Session, a)], resource)
            && Holds(r[(Session, b)], resource)
      ensures a == b
    {
      var i :| 0 <= i < |rows| && Required(rows[i], Id) == a && r[(Session, a)] == SnapshotRow(rows[i]);
      var j :| 0 <= j < |rows| && Required(rows[j], Id) == b && r[(Session, b)] == SnapshotRow(rows[j]);
      assert i == j;
    }
  }

  /** Loading another kind leaves the sessions alone. */
  lemma OtherKindKeeps(cache: Cache, kind: Kind, rows: seq<Payload>)
    requires kind != Session && InsertRows(ClearKind(cache, kind), kind, rows).Loaded?
    ensures var r := InsertRows(ClearKind(cache, kind), kind, rows).cache;
            forall id ::
              ((Session, id) in r <==> (Session, id) in cache)
              && ((Session, id) in r ==> r[(Session, id)] == cache[(Session, id)])
  {
    InsertedRows(ClearKind(cache, kind), kind, rows);
    forall id ensures (Session, id) in ClearKind(cache, kind) <==> (Session, id) in cache {
    }
  }

  lemma SameSessionsSound(a: Cache, b: Cache)
    requires Sound(a)
    requires forall id ::
               ((Session, id) in b <==> (Session, id) in a)
               && ((Session, id) in b ==> b[(Session, id)] == a[(Session, id)])
    ensures Sound(b)
  {
  }

  lemma {:induction false} LoadKeeps(cache: Cache, s: Snapshot, kinds: seq<Kind>)
    requires Sound(cache) && GoodSnapshot(s) && LoadKinds(cache, s, kinds).Loaded?
    ensures Sound(LoadKinds(cache, s, kinds).cache)
  {
    if kinds != [] {
      LoadKeeps(cache, s, kinds[..|kinds| - 1]);
      var before := LoadKinds(cache, s, kinds[..|kinds| - 1]).cache;
      var kind := kinds[|kinds| - 1];
      if kind == Session {
        LoadedSessionsSound(ClearKind(before, Session), s);
      } else {
        OtherKindKeeps(before, kind, RowsOf(s, kind));
        SameSessionsSound(before, LoadKinds(cache, s, kinds).cache);
      }
    }
  }

  // ---------- Whole runs ----------

  datatype Step = Create(input: CommandInput) | Load(snapshot: Snapshot) | LoadCut(snapshot: Snapshot)

  function Next(t: Tables, step: Step): Tables {
    match step
    case Create(input) => CreateCommand(t, input).0
    case Load(snapshot) => ApplySnapshot(t, snapshot).0
    case LoadCut(snapshot) => CutSnapshot(t, snapshot)
  }

  /** What the engine relies on but does not check. */
  ghost predicate Careful(t: Tables, step: Step) {
    match step
    case Load(snapshot) => GoodSnapshot(snapshot)
    case LoadCut(_) => true
    case Create(input) =>
      var key := (Session, Trim(input.aggregateId));
      match input.operation
      case SessionStart => PlainResource(input.payload)
      case SessionPause | SessionResume => key in t.cache ==> Live(t.cache[key].payload)
      case _ => true
  }

  lemma ProjectKeeps(t: Tables, input: CommandInput, e: Envelope)
    requires Sound(t.cache) && Careful(t, Create(input)) && e.Envelope? && e.aggregateId == Trim(input.aggregateId)
    requires ProjectInput(t, input, e).Projected?
    ensures Sound(ProjectInput(t, input, e).cache)
  {
    match input.operation {
      case SessionStart => StartKeeps(t.cache, e.aggregateId, input.payload, input.occurredAt);
      case SessionPause | SessionResume | SessionEnd =>
        MoveKeepsExactly(t.cache, input.operation, e.aggregateId, input.aggregateVersion, input.occurredAt);
      case _ => SameSessionsSound(t.cache, ProjectInput(t, input, e).cache);
    }
  }

  lemma CreateKeeps(t: Tables, input: CommandInput, e: Envelope)
    requires Sound(t.cache) && Careful(t, Create(input)) && (e.Envelope? ==> e.aggregateId == Trim(input.aggregateId))
    ensures Sound(CreateChecked(t, input, e).0.cache)
  {
    if CreateChecked(t, input, e).1.Created? {
      ProjectKeeps(t, input, e);
    }
  }

  lemma NextKeeps(t: Tables, step: Step)
    requires Sound(t.cache) && Careful(t, step)
    ensures Sound(Next(t, step).cache)
  {
    match step {
      case Create(input) =>
        CreateKeeps(t, input, CheckEnvelope(t.shopId, input));
      case Load(snapshot) =>
        if ApplySnapshot(t, snapshot).1.None? {
          LoadKeeps(t.cache, snapshot, SNAPSHOT_KINDS);
        }
      case LoadCut(_) =>
    }
  }

  ghost predicate CarefulRun(states: seq<Tables>, steps: seq<Step>) {
    |states| == |steps| + 1 && states[0] == Tables(None, map[], [], map[], map[])
    && forall i | 0 <= i < |steps| :: Careful(states[i], steps[i]) && states[i + 1] == Next(states[i], steps[i])
  }

  /** Over all commands and snapshots no resource ever has two live cached sessions. */
  lemma {:induction false} OneLiveSessionPerResource(states: seq<Tables>, steps: seq<Step>, i: nat)
    requires CarefulRun(states, steps) && i < |states|
    ensures OneLive(states[i].cache) && Sound(states[i].cache)
  {
    if i > 0 {
      OneLiveSessionPerResource(states, steps, i - 1);
      NextKeeps(states[i - 1], steps[i - 1]);
    }
  }

  // ---------- Why care is needed ----------

  function StartInput(letter: char, id: string, resource: string): CommandInput {
    OwnerInput(SessionStart, letter, id, map[OperatorUserId := Str("u"), ResourceId := Str(resource)])
  }

  function MoveInput(op: Operation, letter: char, id: string): CommandInput {
    OwnerInput(op, letter, id, map[OperatorUserId := Str("u")])
  }

  /** A text of one character that trimming keeps. */
  predicate Short(s: string) {
    |s| == 1 && !IsSpace(s[0])
  }

  /** One session row is new or replaced. */
  ghost predicate SetsSession(before: Cache, after: Cache, id: string, live: bool, resource: string) {
    (Session, id) in after && after == before[(Session, id) := after[(Session, id)]]
    && (Live(after[(Session, id)].payload) <==> live)
    && ResourceId in after[(Session, id)].payload && after[(Session, id)].payload[ResourceId] == Str(resource)
  }

  lemma StartProjects(cache: Cache, payload: Payload, id: string, resource: string, occurredAt: string)
    requires (Resource, "r") in cache && cache[(Resource, "r")] == CacheRow(None, SampleHub.FREE)
    requires Trim(resource) == "r" && !Occupied(cache, "r")
    requires ResourceId in payload && payload[ResourceId] == Str(resource) && Status !in payload
    ensures StartSession(cache, id, payload, occurredAt).1.None?
    ensures SetsSession(cache, StartSession(cache, id, payload, occurredAt).0, id, true, resource)
  {
    assert FieldText(SampleHub.FREE, Status) == "" && "" !in {"MAINTENANCE", "DISABLED"};
    StartShape(cache, id, payload, occurredAt);
  }

  lemma StaffedStays(t: Tables, t': Tables, letters: string, letter: char, id: string, live: bool, resource: string,
      c: Command)
    requires Staffed(t, letters) && t'.shopId == t.shopId && t'.commands == t.commands + [c]
    requires c.operationId == Uuid(letter) && c.idempotencyKey == Uuid(letter)
    requires SetsSession(t.cache, t'.cache, id, live, resource)
    ensures Staffed(t', letters + [letter])
  {
  }

  lemma StartAccepted(t: Tables, letters: string, letter: char, id: string, resource: string)
    requires Staffed(t, letters) && letter !in letters && EdgeStore.IsHex(letter) && Short(id)
    requires Trim(resource) == "r" && !Occupied(t.cache, "r")
    ensures var (t', outcome) := CreateCommand(t, StartInput(letter, id, resource));
            outcome.Created? && Staffed(t', letters + [letter]) && SetsSession(t.cache, t'.cache, id, true, resource)
  {
    var input := StartInput(letter, id, resource);
    StartProjects(t.cache, input.payload, id, resource, input.occurredAt);
    OwnerCommand(t, letters, SessionStart, letter, id, input.payload);
    var (t', outcome) := CreateCommand(t, input);
    StaffedStays(t, t', letters, letter, id, true, resource, outcome.command);
  }

  lemma MoveProjects(cache: Cache, op: Operation, id: string, resource: string, occurredAt: string)
    requires (Session, id) in cache && (op.SessionEnd? || op.SessionResume?)
    requires ResourceId in cache[(Session, id)].payload && cache[(Session, id)].payload[ResourceId] == Str(resource)
    ensures MoveSession(cache, op, id, None, occurredAt).1.None?
    ensures SetsSession(cache, MoveSession(cache, op, id, None, occurredAt).0, id, op.SessionResume?, resource)
  {
    MoveShape(cache, op, id, None, occurredAt);
  }

  lemma MoveAccepted(t: Tables, letters: string, op: Operation, letter: char, id: string, resource: string)
    requires Staffed(t, letters) && letter !in letters && EdgeStore.IsHex(letter) && Short(id)
    requires (Session, id) in t.cache && (op.SessionEnd? || op.SessionResume?)
    requires ResourceId in t.cache[(Session, id)].payload && t.cache[(Session, id)].payload[ResourceId] == Str(resource)
    ensures var (t', outcome) := CreateCommand(t, MoveInput(op, letter, id));
            outcome.Created? && Staffed(t', letters + [letter])
            && SetsSession(t.cache, t'.cache, id, op.SessionResume?, resource)
  {
    var input := MoveInput(op, letter, id);
    MoveProjects(t.cache, op, id, resource, input.occurredAt);
    OwnerCommand(t, letters, op, letter, id, input.payload);
    var (t', outcome) := CreateCommand(t, input);
    StaffedStays(t, t', letters, letter, id, op.SessionResume?, resource, outcome.command);
  }

  /** Two sessions of an accepted run are live on one resource. */
  ghost predicate BothLive(cache: Cache, a: string, b: string, resource: string) {
    a != b && (Session, a) in cache && (Session, b) in cache
    && Holds(cache[(Session, a)], resource) && Holds(cache[(Session, b)], resource)
  }

  lemma BothLiveBreaks(cache: Cache, a: string, b: string, resource: string)
    requires BothLive(cache, a, b, resource)
    ensures !OneLive(cache)
  {
  }

  /** A finished session is resumed while its resource has a new one: start s, end s, start n, resume s. From an empty
      hub and its first snapshot all four are accepted, and then two sessions are live on r. */
  lemma ResumeOfFinishedBreaks()
    ensures var hub := ApplySnapshot(EMPTY_TABLES, FIRST_SNAPSHOT).0;
            var c1 := CreateCommand(hub, StartInput('a', "s", "r"));
            var c2 := CreateCommand(c1.0, MoveInput(SessionEnd, 'b', "s"));
            var c3 := CreateCommand(c2.0, StartInput('c', "n", "r"));
            var c4 := CreateCommand(c3.0, MoveInput(SessionResume, 'd', "s"));
            c1.1.Created? && c2.1.Created? && c3.1.Created? && c4.1.Created? && !OneLive(c4.0.cache)
  {
    SnapshotGivesHub();
    FreeHub();
    ResumeBreaks(HUB);
  }

  lemma FreeHub()
    ensures Staffed(HUB, "") && forall k | k in HUB.cache :: k.0 != Session
  {
  }

  /** Only session s is cached, finished, on resource r. */
  ghost predicate OnlyFinished(cache: Cache) {
    (Session, "s") in cache && !Live(cache[(Session, "s")].payload)
    && ResourceId in cache[(Session, "s")].payload && cache[(Session, "s")].payload[ResourceId] == Str("r")
    && forall k | k in cache && k.0 == Session :: k.1 == "s"
  }

  lemma EndedIsOnly(c0: Cache, c1: Cache, c2: Cache)
    requires forall k | k in c0 :: k.0 != Session
    requires SetsSession(c0, c1, "s", true, "r") && SetsSession(c1, c2, "s", false, "r")
    ensures OnlyFinished(c2)
  {
  }

  lemma NoSessionIsFree(cache: Cache, resource: string)
    requires forall k | k in cache :: k.0 != Session
    ensures !Occupied(cache, resource)
  {
  }

  lemma FinishedIsFree(cache: Cache, resource: string)
    requires OnlyFinished(cache)
    ensures !Occupied(cache, resource)
  {
  }

  lemma BothResumed(c2: Cache, c3: Cache, c4: Cache)
    requires OnlyFinished(c2) && SetsSession(c2, c3, "n", true, "r") && SetsSession(c3, c4, "s", true, "r")
    ensures BothLive(c4, "s", "n", "r")
  {
    Plain("r");
    assert "s"[0] != "n"[0];
  }

  lemma SKept(c2: Cache, c3: Cache)
    requires OnlyFinished(c2) && SetsSession(c2, c3, "n", true, "r")
    ensures (Session, "s") in c3 && ResourceId in c3[(Session, "s")].payload
    ensures c3[(Session, "s")].payload[ResourceId] == Str("r")
  {
    assert "s"[0] != "n"[0];
  }

  lemma EndsIt(c0: Cache, t1: Tables, end: CommandInput)
    requires Staffed(t1, "a") && SetsSession(c0, t1.cache, "s", true, "r") && forall k | k in c0 :: k.0 != Session
    requires end == MoveInput(SessionEnd, 'b', "s")
    ensures var c2 := CreateCommand(t1, end);
            c2.1.Created? && Staffed(c2.0, "ab") && OnlyFinished(c2.0.cache)
  {
    MoveAccepted(t1, "a", SessionEnd, 'b', "s", "r");
    EndedIsOnly(c0, t1.cache, CreateCommand(t1, end).0.cache);
  }

  lemma ResumesIt(c2: Cache, t3: Tables, resume: CommandInput)
    requires Staffed(t3, "abc") && OnlyFinished(c2) && SetsSession(c2, t3.cache, "n", true, "r")
    requires resume == MoveInput(SessionResume, 'd', "s")
    ensures var c4 := CreateCommand(t3, resume);
            c4.1.Created? && BothLive(c4.0.cache, "s", "n", "r")
  {
    SKept(c2, t3.cache);
    MoveAccepted(t3, "abc", SessionResume, 'd', "s", "r");
    BothResumed(c2, t3.cache, CreateCommand(t3, resume).0.cache);
  }

  /** An accepted start after the given letters. */
  lemma StartsOn(t: Tables, letters: string, longer: string, letter: char, id: string, start: CommandInput)
    requires Staffed(t, letters) && letter !in letters && EdgeStore.IsHex(letter) && Short(id)
    requires !Occupied(t.cache, "r") && longer == letters + [letter] && start == StartInput(letter, id, "r")
    ensures var (t', outcome) := CreateCommand(t, start);
            outcome.Created? && Staffed(t', longer) && SetsSession(t.cache, t'.cache, id, true, "r")
  {
    Plain("r");
    StartAccepted(t, letters, letter, id, "r");
  }

  lemma StartAndEnd(hub: Tables, start: CommandInput, end: CommandInput)
    requires Staffed(hub, "") && forall k | k in hub.cache :: k.0 != Session
    requires start == StartInput('a', "s", "r") && end == MoveInput(SessionEnd, 'b', "s")
    ensures var c1 := CreateCommand(hub, start);
            var c2 := CreateCommand(c1.0, end);
            c1.1.Created? && c2.1.Created? && Staffed(c2.0, "ab") && OnlyFinished(c2.0.cache)
  {
    NoSessionIsFree(hub.cache, "r");
    StartsOn(hub, "", "a", 'a', "s", start);
    EndsIt(hub.cache, CreateCommand(hub, start).0, end);
  }

  lemma StartAndResume(t: Tables, start: CommandInput, resume: CommandInput)
    requires Staffed(t, "ab") && OnlyFinished(t.cache)
    requires start == StartInput('c', "n", "r") && resume == MoveInput(SessionResume, 'd', "s")
    ensures var c3 := CreateCommand(t, start);
            var c4 := CreateCommand(c3.0, resume);
            c3.1.Created? && c4.1.Created? && BothLive(c4.0.cache, "s", "n", "r")
  {
    FinishedIsFree(t.cache, "r");
    StartsOn(t, "ab", "abc", 'c', "n", start);
    ResumesIt(t.cache, CreateCommand(t, start).0, resume);
  }

  lemma ResumeBreaks(hub: Tables)
    requires Staffed(hub, "") && forall k | k in hub.cache :: k.0 != Session
    ensures var c1 := CreateCommand(hub, StartInput('a', "s", "r"));
            var c2 := CreateCommand(c1.0, MoveInput(SessionEnd, 'b', "s"));
            var c3 := CreateCommand(c2.0, StartInput('c', "n", "r"));
            var c4 := CreateCommand(c3.0, MoveInput(SessionResume, 'd', "s"));
            c1.1.Created? && c2.1.Created? && c3.1.Created? && c4.1.Created? && !OneLive(c4.0.cache)
  {
    var first, end := StartInput('a', "s", "r"), MoveInput(SessionEnd, 'b', "s");
    var second, resume := StartInput('c', "n", "r"), MoveInput(SessionResume, 'd', "s");
    StartAndEnd(hub, first, end);
    var t2 := CreateCommand(CreateCommand(hub, first).0, end).0;
    StartAndResume(t2, second, resume);
    BothLiveBreaks(CreateCommand(CreateCommand(t2, second).0, resume).0.cache, "s", "n", "r");
  }

  /** The start check compares the resource id of a cached session as it was given: two starts on a padded id are both
      accepted, and both sessions are live on the resource that the padding hides. */
  lemma PaddedStartsBreak()
    ensures var hub := ApplySnapshot(EMPTY_TABLES, FIRST_SNAPSHOT).0;
            var c1 := CreateCommand(hub, StartInput('a', "s", " r"));
            var c2 := CreateCommand(c1.0, StartInput('b', "n", " r"));
            c1.1.Created? && c2.1.Created? && !OneLive(c2.0.cache)
  {
    SnapshotGivesHub();
    FreeHub();
    PaddedBreaks(HUB);
  }

  lemma PaddingHides()
    ensures Trim(" r") == "r" && " r" != "r"
  {
    assert " r"[1..] == "r" && IsSpace(' ') && !IsSpace('r');
    assert TrimStart(" r") == TrimStart("r") == "r";
    assert |" r"| != |"r"|;
  }

  /** One session more, on the padded id: the plain one does not look occupied. */
  lemma PaddedIsNotOccupied(before: Cache, cache: Cache)
    requires (forall k | k in before :: k.0 != Session) && SetsSession(before, cache, "s", true, " r")
    ensures !Occupied(cache, "r")
  {
    PaddingHides();
  }

  lemma BothPadded(c0: Cache, c1: Cache, c2: Cache)
    requires SetsSession(c0, c1, "s", true, " r") && SetsSession(c1, c2, "n", true, " r")
    ensures BothLive(c2, "s", "n", "r")
  {
    PaddingHides();
    assert "s"[0] != "n"[0];
  }

  lemma PaddedAgain(c0: Cache, t1: Tables)
    requires Staffed(t1, "a") && SetsSession(c0, t1.cache, "s", true, " r") && forall k | k in c0 :: k.0 != Session
    ensures var c2 := CreateCommand(t1, StartInput('b', "n", " r"));
            c2.1.Created? && !OneLive(c2.0.cache)
  {
    PaddingHides();
    PaddedIsNotOccupied(c0, t1.cache);
    StartAccepted(t1, "a", 'b', "n", " r");
    var t2 := CreateCommand(t1, StartInput('b', "n", " r")).0;
    BothPadded(c0, t1.cache, t2.cache);
    BothLiveBreaks(t2.cache, "s", "n", "r");
  }

  lemma PaddedBreaks(hub: Tables)
    requires Staffed(hub, "") && forall k | k in hub.cache :: k.0 != Session
    ensures var c1 := CreateCommand(hub, StartInput('a', "s", " r"));
            var c2 := CreateCommand(c1.0, StartInput('b', "n", " r"));
            c1.1.Created? && c2.1.Created? && !OneLive(c2.0.cache)
  {
    PaddingHides();
    NoSessionIsFree(hub.cache, "r");
    StartAccepted(hub, "", 'a', "s", " r");
    PaddedAgain(hub.cache, CreateCommand(hub, StartInput('a', "s", " r")).0);
  }
}
