/** store.js: the append-only event log and the aggregate table it materialises. */
module EdgeStore {
  import opened Collections
  import opened Options
  import opened CanonicalJson
  import Digits

  datatype CloudState = Pending | Synced | Conflict

  /** The columns of an event that never change after the insert. */
  datatype Fact = Fact(
    eventId: string, sourceDeviceId: string, operationType: string, entityId: string,
    expectedVersion: Option<int>, payloadHash: string, payloadJson: string, occurredAt: string, resultVersion: nat)

  datatype Event = Event(sequence: nat, fact: Fact, cloudState: CloudState, cloudAttempts: nat,
      cloudError: Option<string>)

  datatype Aggregate = Aggregate(version: nat, stateJson: string)

  datatype Tables = Tables(events: seq<Event>, aggregates: map<string, Aggregate>)

  /** A request to append; payloadHash is the caller's hash in lower case. */
  datatype EventInput = EventInput(
    eventId: string, sourceDeviceId: string, operationType: string, entityId: string,
    expectedVersion: Option<int>, payload: Json, payloadHash: string, occurredAt: Option<string>)

  datatype StoreError =
    | OfflineUnsupported | PayloadNotObject | FieldNotSupported | HashMismatch | NotUuid
    | IdempotencyConflict | VersionNotAllowed | AlreadyExists(version: nat) | VersionRequired
    | DoesNotExist | VersionConflict(expected: int, current: nat)

  datatype Outcome = Accepted(event: Event) | Duplicate(event: Event) | Rejected(error: StoreError)

  const CHECK_CREATE := "CHECK_CREATE"
  const CHECK_UPDATE := "CHECK_UPDATE"
  const SAFE_FIELDS := ["guestName", "guestEmail", "guestPhone", "label", "note", "partySize"]

  predicate IsHex(c: char) {
    '0' <= c <= '9' || 'a' <= c <= 'f' || 'A' <= c <= 'F'
  }

  /** UUID_RE */
  predicate IsUuid(s: string) {
    |s| == 36
    && (forall i | 0 <= i < 36 :: if i in {8, 13, 18, 23} then s[i] == '-' else IsHex(s[i]))
    && '1' <= s[14] <= '8'
    && s[19] in {'8', '9', 'a', 'b', 'A', 'B'}
  }

  // ---------- Object spread ----------

  function Put(ms: seq<Member>, m: Member): seq<Member> {
    if HasKey(ms, m.key) then ms[IndexOf(ms, m.key) := m] else ms + [m]
  }

  /** { ...base, ...over } */
  function Spread(base: seq<Member>, over: seq<Member>): seq<Member>
    decreases |over|
  {
    if over == [] then base else Spread(Put(base, over[0]), over[1..])
  }

  lemma PutEffect(ms: seq<Member>, m: Member, k: string)
    requires Distinct(Keys(ms))
    ensures Distinct(Keys(Put(ms, m)))
    ensures HasKey(Put(ms, m), k) <==> k == m.key || HasKey(ms, k)
    ensures HasKey(Put(ms, m), k) ==> Lookup(Put(ms, m), k) == if k == m.key then m.value else Lookup(ms, k)
  {
    var r := Put(ms, m);
    if HasKey(ms, m.key) {
      var at := IndexOf(ms, m.key);
      assert forall i | 0 <= i < |ms| :: Keys(r)[i] == Keys(ms)[i];
      if HasKey(ms, k) {
        assert r[IndexOf(ms, k)].key == k;
      }
    } else {
      forall i | 0 <= i < |ms| ensures Keys(r)[i] == Keys(ms)[i] && ms[i].key != m.key {
      }
      assert r[|ms|] == m;
      if HasKey(ms, k) {
        assert r[IndexOf(ms, k)].key == k;
      }
    }
    if HasKey(r, k) {
      LookupAt(r, IndexOf(r, k));
      if HasKey(ms, k) {
        LookupAt(r, IndexOf(ms, k));
      } else {
        assert k == m.key;
      }
    }
  }

  /** The spread has the names of both objects and, for each, the value of the later object that has it. */
  lemma {:induction false} SpreadEffect(base: seq<Member>, over: seq<Member>, k: string)
    requires Distinct(Keys(base)) && Distinct(Keys(over))
    ensures Distinct(Keys(Spread(base, over)))
    ensures HasKey(Spread(base, over), k) <==> HasKey(base, k) || HasKey(over, k)
    ensures HasKey(Spread(base, over), k) ==>
              Lookup(Spread(base, over), k) == if HasKey(over, k) then Lookup(over, k) else Lookup(base, k)
    decreases |over|
  {
    if over != [] {
      var rest := over[1..];
      assert forall i | 0 <= i < |rest| :: Keys(rest)[i] == Keys(over)[i + 1];
      PutEffect(base, over[0], k);
      SpreadEffect(Put(base, over[0]), rest, k);
      HasKeyHead(over, k);
    }
  }

  lemma HasKeyHead(ms: seq<Member>, k: string)
    requires ms != []
    ensures HasKey(ms, k) <==> ms[0].key == k || HasKey(ms[1..], k)
    ensures HasKey(ms, k) ==> Lookup(ms, k) == if ms[0].key == k then ms[0].value else Lookup(ms[1..], k)
    ensures Distinct(Keys(ms)) ==> !HasKey(ms[1..], ms[0].key)
  {
    if HasKey(ms[1..], k) {
      assert ms[IndexOf(ms[1..], k) + 1].key == k;
    }
    if HasKey(ms, k) && ms[0].key != k {
      assert ms[1..][IndexOf(ms, k) - 1].key == k;
    }
    if HasKey(ms[1..], ms[0].key) {
      var i := IndexOf(ms[1..], ms[0].key);
      assert Keys(ms)[i + 1] == Keys(ms)[0];
    }
  }

  lemma {:induction false} SpreadWellFormed(base: seq<Member>, over: seq<Member>)
    requires WellFormed(Obj(base)) && WellFormed(Obj(over))
    ensures WellFormed(Obj(Spread(base, over)))
  {
    var r := Spread(base, over);
    SpreadEffect(base, over, "");
    forall i | 0 <= i < |r| ensures WellFormed(r[i].value) {
      SpreadEffect(base, over, r[i].key);
      LookupAt(r, i);
    }
  }

  /** Spreading data that is the same up to member order gives data that is the same up to member order. */
  lemma SpreadSame(a: seq<Member>, a': seq<Member>, b: seq<Member>, b': seq<Member>)
    requires Distinct(Keys(a)) && Distinct(Keys(a')) && Distinct(Keys(b)) && Distinct(Keys(b'))
    requires SameMembers(a, a') && SameMembers(b, b')
    ensures SameMembers(Spread(a, b), Spread(a', b'))
  {
    forall k
      ensures (HasKey(Spread(a, b), k) <==> HasKey(Spread(a', b'), k))
              && (HasKey(Spread(a, b), k) ==> Same(Lookup(Spread(a, b), k), Lookup(Spread(a', b'), k)))
    {
      SpreadEffect(a, b, k);
      SpreadEffect(a', b', k);
    }
  }

  // ---------- The append transaction ----------

  function InputError(sha256: string -> string, input: EventInput): Option<StoreError> {
    if input.operationType != CHECK_CREATE && input.operationType != CHECK_UPDATE then Some(OfflineUnsupported)
    else if !input.payload.Obj? then Some(PayloadNotObject)
    else if exists i | 0 <= i < |input.payload.members| :: input.payload.members[i].key !in SAFE_FIELDS then
        Some(FieldNotSupported)
    else if sha256(Print(input.payload)) != input.payloadHash then Some(HashMismatch)
    else if !IsUuid(input.eventId) then Some(NotUuid)
    else None
  }

  function VersionJson(v: Option<int>): Json {
    if v.None? then Null else Number(Digits.IntText(v.value))
  }

  /** The fact that an accepted append inserts. */
  function NewFact(sha256: string -> string, input: EventInput, version: nat, now: string): Fact {
    Fact(input.eventId, input.sourceDeviceId, input.operationType, input.entityId, input.expectedVersion,
         sha256(Print(input.payload)), Print(input.payload), input.occurredAt.GetOr(now), version)
  }

  /** The request record whose canonical text is hashed to recognise a repeated append. */
  function RequestJson(f: Fact, payload: Json): Json {
    Obj([Member("eventId", Str(f.eventId)), Member("sourceDeviceId", Str(f.sourceDeviceId)),
         Member("operationType", Str(f.operationType)), Member("entityId", Str(f.entityId)),
         Member("expectedVersion", VersionJson(f.expectedVersion)), Member("payload", payload),
         Member("payloadHash", Str(f.payloadHash)), Member("occurredAt", Str(f.occurredAt))])
  }

  function InputRequest(sha256: string -> string, input: EventInput, now: string): Json {
    RequestJson(NewFact(sha256, input, 0, now), input.payload)
  }

  /** JSON.parse of stored text, which is always canonical. */
  function Reparse(text: string): Json {
    Parse(text).GetOr(Null)
  }

  function Members(v: Json): seq<Member> {
    if v.Obj? then v.members else []
  }

  function FactRequest(f: Fact): Json {
    RequestJson(f, Reparse(f.payloadJson))
  }

  /** SELECT * FROM events WHERE event_id=? */
  function FindEvent(events: seq<Event>, eventId: string): (i: Option<nat>)
    ensures i.Some? ==> i.value < |events| && events[i.value].fact.eventId == eventId
    ensures i.None? ==> forall j | 0 <= j < |events| :: events[j].fact.eventId != eventId
  {
    if events == [] then None
    else
      var front := FindEvent(events[..|events| - 1], eventId);
      if front.Some? then front
      else if events[|events| - 1].fact.eventId == eventId then Some(|events| - 1)
      else None
  }

  /** The version and state to store, or the error that rolls the transaction back. */
  datatype Next = Next(version: nat, state: seq<Member>) | NoNext(error: StoreError)

  function NextVersion(aggregates: map<string, Aggregate>, input: EventInput): Next {
    var current := if input.entityId in aggregates then Some(aggregates[input.entityId]) else None;
    if input.operationType == CHECK_CREATE then
      if input.expectedVersion.Some? then NoNext(VersionNotAllowed)
      else if current.Some? then NoNext(AlreadyExists(current.value.version))
      else Next(1, Members(input.payload))
    else if input.expectedVersion.None? || input.expectedVersion.value < 1 then NoNext(VersionRequired)
    else if current.None? then NoNext(DoesNotExist)
    else if current.value.version != input.expectedVersion.value then
      NoNext(VersionConflict(input.expectedVersion.value, current.value.version))
    else Next(current.value.version + 1, Spread(Members(Reparse(current.value.stateJson)), Members(input.payload)))
  }

  function NewEvent(sha256: string -> string, events: seq<Event>, input: EventInput, version: nat, now: string): Event {
    Event(|events| + 1, NewFact(sha256, input, version, now), Pending, 0, None)
  }

  /** appendEvent as one step on the two tables. */
  function Append(sha256: string -> string, t: Tables, input: EventInput, now: string): (r: (Tables, Outcome)) {
    var invalid := InputError(sha256, input);
    if invalid.Some? then (t, Rejected(invalid.value))
    else
      var at := FindEvent(t.events, input.eventId);
      if at.Some? then
        var e := t.events[at.value];
        if sha256(Print(FactRequest(e.fact))) != sha256(Print(InputRequest(sha256, input, now)))
        then (t, Rejected(IdempotencyConflict))
        else (t, Duplicate(e))
      else
        match NextVersion(t.aggregates, input)
        case NoNext(error) => (t, Rejected(error))
        case Next(version, state) =>
          var e := NewEvent(sha256, t.events, input, version, now);
          (Tables(t.events + [e], t.aggregates[input.entityId := Aggregate(version, Print(Obj(state)))]), Accepted(e))
  }

  /** What marking an event may do: no row appears, moves or changes its fact, and other events stay as they are. */
  ghost predicate OnlyMarked(eventId: string, before: seq<Event>, after: seq<Event>) {
    |after| == |before|
    && forall i | 0 <= i < |before| ::
         after[i].fact == before[i].fact && after[i].sequence == before[i].sequence
         && (before[i].fact.eventId != eventId ==> after[i] == before[i])
         && (before[i].fact.eventId == eventId ==> after[i].cloudAttempts == before[i].cloudAttempts + 1)
  }

  function Mark(events: seq<Event>, eventId: string, state: Option<CloudState>, error: Option<string>): (r: seq<Event>)
    ensures OnlyMarked(eventId, events, r)
  {
    seq(|events|, i requires 0 <= i < |events| =>
      if events[i].fact.eventId == eventId
      then events[i].(cloudState := state.GetOr(events[i].cloudState),
                      cloudAttempts := events[i].cloudAttempts + 1, cloudError := error)
      else events[i])
  }

  // ---------- The invariant ----------

  /** The facts of one entity, oldest first. */
  function FactsOf(events: seq<Event>, entityId: string): seq<Fact> {
    if events == [] then []
    else
      var last := events[|events| - 1];
      FactsOf(events[..|events| - 1], entityId) + if last.fact.entityId == entityId then [last.fact] else []
  }

  function PayloadOf(f: Fact): seq<Member> {
    Members(Reparse(f.payloadJson))
  }

  /** The left-to-right override-merge of the payloads. */
  function Fold(facts: seq<Fact>): seq<Member> {
    if facts == [] then [] else Spread(Fold(facts[..|facts| - 1]), PayloadOf(facts[|facts| - 1]))
  }

  ghost predicate Stored(sha256: string -> string, f: Fact) {
    var p := Parse(f.payloadJson);
    p.Some? && p.value.Obj? && WellFormed(p.value) && Print(p.value) == f.payloadJson
        && f.payloadHash == sha256(f.payloadJson)
  }

  /** The k-th fact of an entity produced version k; the first and only the first is the create. */
  ghost predicate Chain(facts: seq<Fact>) {
    forall k | 0 <= k < |facts| ::
      facts[k].resultVersion == k + 1
      && facts[k].operationType == (if k == 0 then CHECK_CREATE else CHECK_UPDATE)
      && facts[k].expectedVersion == (if k == 0 then None else Some(k))
  }

  ghost predicate RowAgrees(t: Tables, entityId: string) {
    var facts := FactsOf(t.events, entityId);
    Chain(facts)
    && (entityId in t.aggregates <==> facts != [])
    && (entityId in t.aggregates ==>
          t.aggregates[entityId] == Aggregate(|facts|, Print(Obj(Fold(facts)))))
  }

  ghost predicate LogFits(sha256: string -> string, events: seq<Event>) {
    (forall i | 0 <= i < |events| :: events[i].sequence == i + 1 && Stored(sha256, events[i].fact))
    && (forall i, j | 0 <= i < j < |events| :: events[i].fact.eventId != events[j].fact.eventId)
  }

  ghost predicate Inv(sha256: string -> string, t: Tables) {
    && LogFits(sha256, t.events)
    && (forall entityId :: RowAgrees(t, entityId))
  }

  lemma {:induction false} FactsStored(sha256: string -> string, events: seq<Event>, entityId: string)
    requires forall i | 0 <= i < |events| :: Stored(sha256, events[i].fact)
    ensures forall k | 0 <= k < |FactsOf(events, entityId)| :: Stored(sha256, FactsOf(events, entityId)[k])
  {
    if events != [] {
      FactsStored(sha256, events[..|events| - 1], entityId);
    }
  }

  lemma {:induction false} FoldWellFormed(sha256: string -> string, facts: seq<Fact>)
    requires forall k | 0 <= k < |facts| :: Stored(sha256, facts[k])
    ensures WellFormed(Obj(Fold(facts)))
  {
    if facts != [] {
      FoldWellFormed(sha256, facts[..|facts| - 1]);
      SpreadWellFormed(Fold(facts[..|facts| - 1]), PayloadOf(facts[|facts| - 1]));
    }
  }

  lemma NewFactStored(sha256: string -> string, events: seq<Event>, input: EventInput, version: nat, now: string)
    requires WellFormed(input.payload) && input.payload.Obj?
    ensures var f := NewEvent(sha256, events, input, version, now).fact;
            Stored(sha256, f) && SameMembers(PayloadOf(f), Members(input.payload))
  {
    ParseRoundTrip(input.payload);
    PrintParsePrint(input.payload);
    SameObjects(Members(Normalize(input.payload)), Members(input.payload));
  }

  lemma StateReread(state: seq<Member>)
    requires WellFormed(Obj(state))
    ensures var reread := Members(Reparse(Print(Obj(state)))); WellFormed(Obj(reread)) && SameMembers(reread, state)
  {
    PrintParsePrint(Obj(state));
    ParseRoundTrip(Obj(state));
    SameObjects(Members(Reparse(Print(Obj(state)))), state);
  }

  lemma SpreadPrintsSame(a: seq<Member>, a': seq<Member>, b: seq<Member>, b': seq<Member>)
    requires WellFormed(Obj(a)) && WellFormed(Obj(a')) && WellFormed(Obj(b)) && WellFormed(Obj(b'))
    requires SameMembers(a, a') && SameMembers(b, b')
    ensures Print(Obj(Spread(a, b))) == Print(Obj(Spread(a', b')))
  {
    SpreadSame(a, a', b, b');
    SpreadWellFormed(a, b);
    SpreadWellFormed(a', b');
    SameObjects(Spread(a, b), Spread(a', b'));
    PrintIdentifies(Obj(Spread(a, b)), Obj(Spread(a', b')));
  }

  /** Storing the spread of the stored state and the payload is storing the fold with the new payload. */
  lemma UpdateStateIsFold(sha256: string -> string, facts: seq<Fact>, f: Fact, payload: seq<Member>)
    requires forall k | 0 <= k < |facts| :: Stored(sha256, facts[k])
    requires Stored(sha256, f) && WellFormed(Obj(payload)) && SameMembers(PayloadOf(f), payload)
    ensures Print(Obj(Spread(Members(Reparse(Print(Obj(Fold(facts))))), payload))) == Print(Obj(Fold(facts + [f])))
  {
    FoldWellFormed(sha256, facts);
    StateReread(Fold(facts));
    SameMembersSymmetric(PayloadOf(f), payload);
    assert (facts + [f])[..|facts|] == facts;
    SpreadPrintsSame(Members(Reparse(Print(Obj(Fold(facts))))), Fold(facts), payload, PayloadOf(f));
  }

  lemma CreateStateIsFold(sha256: string -> string, f: Fact, payload: seq<Member>)
    requires Stored(sha256, f) && WellFormed(Obj(payload)) && SameMembers(PayloadOf(f), payload)
    ensures Print(Obj(payload)) == Print(Obj(Fold([f])))
  {
    assert [f][..0] == [];
    assert Fold([f]) == Spread([], PayloadOf(f));
    SpreadWellFormed([], PayloadOf(f));
    SameMembersSymmetric(PayloadOf(f), payload);
    SpreadOfNothing(payload, PayloadOf(f));
    SameObjects(payload, Fold([f]));
    PrintIdentifies(Obj(payload), Obj(Fold([f])));
  }

  lemma SpreadOfNothing(ms: seq<Member>, over: seq<Member>)
    requires Distinct(Keys(over)) && SameMembers(ms, over)
    ensures SameMembers(ms, Spread([], over))
  {
    forall k
      ensures (HasKey(ms, k) <==> HasKey(Spread([], over), k))
      ensures (HasKey(ms, k) ==> Same(Lookup(ms, k), Lookup(Spread([], over), k)))
    {
      SpreadEffect([], over, k);
    }
  }

  lemma {:induction false} SameSymmetric(a: Json, b: Json)
    requires WellFormed(a) && WellFormed(b)
    ensures Same(a, b) <==> Same(b, a)
  {
    PrintIdentifies(a, b);
    PrintIdentifies(b, a);
  }

  lemma SameMembersSymmetric(a: seq<Member>, b: seq<Member>)
    requires WellFormed(Obj(a)) && WellFormed(Obj(b)) && SameMembers(a, b)
    ensures SameMembers(b, a)
  {
    SameObjects(a, b);
    SameSymmetric(Obj(a), Obj(b));
    SameObjects(b, a);
  }

  lemma AcceptedShape(sha256: string -> string, t: Tables, input: EventInput, now: string)
    requires Append(sha256, t, input, now).1.Accepted?
    ensures var (t', outcome) := Append(sha256, t, input, now);
            var next := NextVersion(t.aggregates, input);
            next.Next? && input.payload.Obj? && FindEvent(t.events, input.eventId).None?
            && (input.operationType == CHECK_CREATE || input.operationType == CHECK_UPDATE)
            && outcome.event == NewEvent(sha256, t.events, input, next.version, now)
            && t'.events == t.events + [outcome.event]
            && t'.aggregates == t.aggregates[input.entityId := Aggregate(next.version, Print(Obj(next.state)))]
  {
  }

  lemma FactsOfAppended(events: seq<Event>, e: Event, entityId: string)
    ensures FactsOf(events + [e], entityId)
         == FactsOf(events, entityId) + if e.fact.entityId == entityId then [e.fact] else []
  {
    assert (events + [e])[..|events|] == events;
  }

  /** The append keeps log and table in agreement, whatever it is given. */
  lemma AppendKeepsAgreement(sha256: string -> string, t: Tables, input: EventInput, now: string)
    requires Inv(sha256, t) && WellFormed(input.payload)
    ensures Inv(sha256, Append(sha256, t, input, now).0)
    ensures !Append(sha256, t, input, now).1.Accepted? ==> Append(sha256, t, input, now).0 == t
  {
    if Append(sha256, t, input, now).1.Accepted? {
      AcceptedShape(sha256, t, input, now);
      AcceptedLog(sha256, t, input, now);
      var (t', outcome) := Append(sha256, t, input, now);
      forall entityId ensures RowAgrees(t', entityId) {
        if entityId == input.entityId {
          AcceptedRow(sha256, t, input, now);
        } else {
          OtherRow(t, outcome.event, t'.aggregates[input.entityId], entityId);
        }
      }
    }
  }

  lemma AcceptedLog(sha256: string -> string, t: Tables, input: EventInput, now: string)
    requires Inv(sha256, t) && WellFormed(input.payload)
    requires Append(sha256, t, input, now).1.Accepted?
    ensures LogFits(sha256, Append(sha256, t, input, now).0.events)
  {
    var e := Append(sha256, t, input, now).1.event;
    AcceptedShape(sha256, t, input, now);
    NewFactStored(sha256, t.events, input, NextVersion(t.aggregates, input).version, now);
    AppendedLog(sha256, t.events, e);
  }

  lemma AppendedLog(sha256: string -> string, events: seq<Event>, e: Event)
    requires LogFits(sha256, events) && e.sequence == |events| + 1 && Stored(sha256, e.fact)
    requires forall i | 0 <= i < |events| :: events[i].fact.eventId != e.fact.eventId
    ensures LogFits(sha256, events + [e])
  {
  }

  /** Any append leaves the other entities alone; an accepted one adds one fact and one version to its own. */
  lemma AppendTouchesOneEntity(sha256: string -> string, t: Tables, input: EventInput, now: string, entityId: string)
    requires Inv(sha256, t) && WellFormed(input.payload)
    ensures var (t', outcome) := Append(sha256, t, input, now);
            var added := if outcome.Accepted? && entityId == input.entityId then 1 else 0;
            |FactsOf(t'.events, entityId)| == |FactsOf(t.events, entityId)| + added
            && VersionOf(t', entityId) == VersionOf(t, entityId) + added
            && (added == 0 ==> FactsOf(t'.events, entityId) == FactsOf(t.events, entityId)
                               && StateOf(t', entityId) == StateOf(t, entityId))
  {
    AppendKeepsAgreement(sha256, t, input, now);
    assert RowAgrees(t, entityId) && RowAgrees(Append(sha256, t, input, now).0, entityId);
    if Append(sha256, t, input, now).1.Accepted? {
      AcceptedShape(sha256, t, input, now);
      FactsOfAppended(t.events, Append(sha256, t, input, now).1.event, entityId);
    }
  }

  function VersionOf(t: Tables, entityId: string): nat {
    if entityId in t.aggregates then t.aggregates[entityId].version else 0
  }

  function StateOf(t: Tables, entityId: string): Option<string> {
    if entityId in t.aggregates then Some(t.aggregates[entityId].stateJson) else None
  }

  lemma OtherRow(t: Tables, e: Event, row: Aggregate, entityId: string)
    requires RowAgrees(t, entityId) && entityId != e.fact.entityId
    ensures RowAgrees(Tables(t.events + [e], t.aggregates[e.fact.entityId := row]), entityId)
  {
    FactsOfAppended(t.events, e, entityId);
    assert FactsOf(t.events, entityId) + [] == FactsOf(t.events, entityId);
  }

  lemma AcceptedRow(sha256: string -> string, t: Tables, input: EventInput, now: string)
    requires Inv(sha256, t) && WellFormed(input.payload)
    requires Append(sha256, t, input, now).1.Accepted?
    ensures RowAgrees(Append(sha256, t, input, now).0, input.entityId)
  {
    AcceptedShape(sha256, t, input, now);
    var (t', outcome) := Append(sha256, t, input, now);
    StoredRow(sha256, t, input, now, t', outcome.event, NextVersion(t.aggregates, input));
  }

  lemma StoredRow(sha256: string -> string, t: Tables, input: EventInput, now: string, t': Tables, e: Event, next: Next)
    requires Inv(sha256, t) && WellFormed(input.payload) && input.payload.Obj?
    requires input.operationType == CHECK_CREATE || input.operationType == CHECK_UPDATE
    requires next == NextVersion(t.aggregates, input) && next.Next?
    requires e == NewEvent(sha256, t.events, input, next.version, now) && t'.events == t.events + [e]
    requires t'.aggregates == t.aggregates[input.entityId := Aggregate(next.version, Print(Obj(next.state)))]
    ensures RowAgrees(t', input.entityId)
  {
    hide Print, Fold, NextVersion, Stored;
    var facts := FactsOf(t.events, input.entityId);
    assert RowAgrees(t, input.entityId);
    FactsOfAppended(t.events, e, input.entityId);
    FactsStored(sha256, t.events, input.entityId);
    NewFactStored(sha256, t.events, input, next.version, now);
    if input.operationType == CHECK_CREATE {
      NextOfCreate(t, input, next, facts);
      assert facts + [e.fact] == [e.fact];
      CreateStateIsFold(sha256, e.fact, input.payload.members);
    } else {
      NextOfUpdate(t, input, next, facts);
      UpdateStateIsFold(sha256, facts, e.fact, input.payload.members);
      AcceptedUpdateChain(facts, e.fact);
    }
    RowExtended(t, t', input.entityId, facts, e.fact);
  }

  lemma NextOfCreate(t: Tables, input: EventInput, next: Next, facts: seq<Fact>)
    requires RowAgrees(t, input.entityId) && facts == FactsOf(t.events, input.entityId)
    requires input.operationType == CHECK_CREATE && next == NextVersion(t.aggregates, input) && next.Next?
    ensures facts == [] && input.expectedVersion == None && next == Next(1, Members(input.payload))
  {
    hide Print, Fold;
  }

  lemma NextOfUpdate(t: Tables, input: EventInput, next: Next, facts: seq<Fact>)
    requires RowAgrees(t, input.entityId) && facts == FactsOf(t.events, input.entityId)
    requires input.operationType == CHECK_UPDATE && next == NextVersion(t.aggregates, input) && next.Next?
    ensures facts != [] && input.expectedVersion == Some(|facts|)
    ensures next == Next(|facts| + 1, Spread(Members(Reparse(Print(Obj(Fold(facts))))), Members(input.payload)))
  {
    hide Print, Fold;
  }

  lemma RowExtended(t: Tables, t': Tables, entityId: string, facts: seq<Fact>, f: Fact)
    requires facts == FactsOf(t.events, entityId) && FactsOf(t'.events, entityId) == facts + [f] && Chain(facts + [f])
    requires t'.aggregates == t.aggregates[entityId := Aggregate(|facts| + 1, Print(Obj(Fold(facts + [f]))))]
    ensures RowAgrees(t', entityId)
  {
    hide Print, Fold;
  }

  lemma AcceptedUpdateChain(facts: seq<Fact>, f: Fact)
    requires Chain(facts) && facts != []
    requires f.operationType == CHECK_UPDATE && f.expectedVersion == Some(|facts|) && f.resultVersion == |facts| + 1
    ensures Chain(facts + [f])
  {
  }

  /** The agreement speaks about the facts and the numbers of the events, not about their cloud columns. */
  lemma SameFactsKeepAgreement(sha256: string -> string, t: Tables, events: seq<Event>)
    requires Inv(sha256, t) && |events| == |t.events|
    requires forall i | 0 <= i < |events| ::
                events[i].fact == t.events[i].fact && events[i].sequence == t.events[i].sequence
    ensures Inv(sha256, Tables(events, t.aggregates))
  {
    forall entityId ensures RowAgrees(Tables(events, t.aggregates), entityId) {
      assert RowAgrees(t, entityId);
      FactsOfSameFacts(t.events, events, entityId);
    }
  }

  lemma MarkKeepsAgreement(sha256: string -> string, t: Tables, eventId: string, state: Option<CloudState>,
      error: Option<string>)
    requires Inv(sha256, t)
    ensures Inv(sha256, Tables(Mark(t.events, eventId, state, error), t.aggregates))
  {
    SameFactsKeepAgreement(sha256, t, Mark(t.events, eventId, state, error));
  }

  lemma {:induction false} FactsOfSameFacts(a: seq<Event>, b: seq<Event>, entityId: string)
    requires |a| == |b| && forall i | 0 <= i < |a| :: a[i].fact == b[i].fact
    ensures FactsOf(a, entityId) == FactsOf(b, entityId)
  {
    if a != [] {
      FactsOfSameFacts(a[..|a| - 1], b[..|b| - 1], entityId);
    }
  }

  // ---------- Whole runs ----------

  datatype Operation =
    | AppendEvent(input: EventInput, now: string)
    | MarkCloud(eventId: string, state: Option<CloudState>, error: Option<string>)

  function Step(sha256: string -> string, t: Tables, op: Operation): Tables {
    match op
    case AppendEvent(input, now) => Append(sha256, t, input, now).0
    case MarkCloud(eventId, state, error) => Tables(Mark(t.events, eventId, state, error), t.aggregates)
  }

  function Run(sha256: string -> string, ops: seq<Operation>): Tables {
    if ops == [] then Tables([], map[]) else Step(sha256, Run(sha256, ops[..|ops| - 1]), ops[|ops| - 1])
  }

  /** In every reachable state the aggregate table is the fold of the log. */
  lemma {:induction false} LogAndTableAgree(sha256: string -> string, ops: seq<Operation>)
    requires forall i | 0 <= i < |ops| && ops[i].AppendEvent? :: WellFormed(ops[i].input.payload)
    ensures Inv(sha256, Run(sha256, ops))
  {
    if ops != [] {
      var before := Run(sha256, ops[..|ops| - 1]);
      LogAndTableAgree(sha256, ops[..|ops| - 1]);
      match ops[|ops| - 1] {
        case AppendEvent(input, now) => AppendKeepsAgreement(sha256, before, input, now);
        case MarkCloud(eventId, state, error) => MarkKeepsAgreement(sha256, before, eventId, state, error);
      }
    }
  }

  /** What the fold means: a name holds the value of the last payload that has it. */
  lemma {:induction false} FoldIsLastWriter(facts: seq<Fact>, key: string, k: nat)
    requires k < |facts| && HasKey(PayloadOf(facts[k]), key)
    requires forall j | k < j < |facts| :: !HasKey(PayloadOf(facts[j]), key)
    requires forall j | 0 <= j < |facts| :: Distinct(Keys(PayloadOf(facts[j])))
    ensures Distinct(Keys(Fold(facts)))
    ensures HasKey(Fold(facts), key) && Lookup(Fold(facts), key) == Lookup(PayloadOf(facts[k]), key)
  {
    var front := facts[..|facts| - 1];
    FoldNames(front, key);
    SpreadEffect(Fold(front), PayloadOf(facts[|facts| - 1]), key);
    if k < |facts| - 1 {
      FoldIsLastWriter(front, key, k);
    }
  }

  ghost predicate Named(facts: seq<Fact>, key: string) {
    exists j :: 0 <= j < |facts| && HasKey(PayloadOf(facts[j]), key)
  }

  lemma {:induction false} FoldNames(facts: seq<Fact>, key: string)
    requires forall j | 0 <= j < |facts| :: Distinct(Keys(PayloadOf(facts[j])))
    ensures Distinct(Keys(Fold(facts)))
    ensures HasKey(Fold(facts), key) <==> Named(facts, key)
  {
    hide PayloadOf, Spread;
    if facts != [] {
      var front, last := facts[..|facts| - 1], facts[|facts| - 1];
      FoldNames(front, key);
      assert Distinct(Keys(PayloadOf(last)));
      SpreadEffect(Fold(front), PayloadOf(last), key);
      FoldNext(facts);
      NamedNext(front, last, key);
      assert facts == front + [last];
    }
  }

  lemma FoldNext(facts: seq<Fact>)
    requires facts != []
    ensures Fold(facts) == Spread(Fold(facts[..|facts| - 1]), PayloadOf(facts[|facts| - 1]))
  {
  }

  lemma NamedNext(front: seq<Fact>, last: Fact, key: string)
    ensures Named(front + [last], key) <==> Named(front, key) || HasKey(PayloadOf(last), key)
  {
    var facts := front + [last];
    assert facts[|front|] == last;
    if Named(front, key) {
      var j :| 0 <= j < |front| && HasKey(PayloadOf(front[j]), key);
      assert facts[j] == front[j];
    }
    if Named(facts, key) {
      var j :| 0 <= j < |facts| && HasKey(PayloadOf(facts[j]), key);
      assert j < |front| ==> facts[j] == front[j];
    }
  }

  // ---------- Idempotence ----------

  ghost predicate Injective(sha256: string -> string) {
    forall x, y :: sha256(x) == sha256(y) ==> x == y
  }

  ghost predicate IsRequest(a: seq<Member>, f: Fact, payload: Json) {
    |a| == 8
    && Keys(a) == ["eventId", "sourceDeviceId", "operationType", "entityId", "expectedVersion", "payload",
        "payloadHash", "occurredAt"]
    && a[0].value == Str(f.eventId) && a[1].value == Str(f.sourceDeviceId) && a[2].value == Str(f.operationType)
    && a[3].value == Str(f.entityId) && a[4].value == VersionJson(f.expectedVersion) && a[5].value == payload
    && a[6].value == Str(f.payloadHash) && a[7].value == Str(f.occurredAt)
  }

  /** Two request records print the same text exactly when all their fields agree, payloads up to member order. */
  lemma RequestsPrintSame(a: seq<Member>, f: Fact, p: Json, b: seq<Member>, g: Fact, q: Json)
    requires IsRequest(a, f, p) && IsRequest(b, g, q) && WellFormed(p) && WellFormed(q)
    ensures Print(Obj(a)) == Print(Obj(b)) <==>
              f.eventId == g.eventId && f.sourceDeviceId == g.sourceDeviceId && f.operationType == g.operationType
              && f.entityId == g.entityId && f.expectedVersion == g.expectedVersion && Same(p, q)
              && f.payloadHash == g.payloadHash && f.occurredAt == g.occurredAt
  {
    RequestKeysDistinct(Obj(a));
    SameRecords(a, b);
    VersionJsonInjective(f.expectedVersion, g.expectedVersion);
    VersionJsonInjective(g.expectedVersion, f.expectedVersion);
    forall i | 0 <= i < 8 ensures WellFormed(a[i].value) && WellFormed(b[i].value) {
      assert i == 0 || i == 1 || i == 2 || i == 3 || i == 4 || i == 5 || i == 6 || i == 7;
    }
    PrintIdentifies(Obj(a), Obj(b));
    EightSame(a, b);
  }

  lemma EightSame(a: seq<Member>, b: seq<Member>)
    requires |a| == |b| == 8
    ensures (forall i | 0 <= i < |a| :: Same(a[i].value, b[i].value)) <==>
              Same(a[0].value, b[0].value) && Same(a[1].value, b[1].value) && Same(a[2].value, b[2].value)
              && Same(a[3].value, b[3].value) && Same(a[4].value, b[4].value) && Same(a[5].value, b[5].value)
              && Same(a[6].value, b[6].value) && Same(a[7].value, b[7].value)
  {
    if Same(a[0].value, b[0].value) && Same(a[1].value, b[1].value) && Same(a[2].value, b[2].value)
       && Same(a[3].value, b[3].value) && Same(a[4].value, b[4].value) && Same(a[5].value, b[5].value)
       && Same(a[6].value, b[6].value) && Same(a[7].value, b[7].value) {
      forall i | 0 <= i < |a| ensures Same(a[i].value, b[i].value) {
        assert i == 0 || i == 1 || i == 2 || i == 3 || i == 4 || i == 5 || i == 6 || i == 7;
      }
    }
  }

  lemma RequestShape(f: Fact, payload: Json)
    ensures IsRequest(RequestJson(f, payload).members, f, payload)
  {
    assert Keys(RequestJson(f, payload).members)
        == ["eventId", "sourceDeviceId", "operationType", "entityId", "expectedVersion", "payload", "payloadHash",
            "occurredAt"];
  }

  lemma RequestKeysDistinct(a: Json)
    requires a.Obj? && |a.members| == 8
    requires Keys(a.members)
         == ["eventId", "sourceDeviceId", "operationType", "entityId", "expectedVersion", "payload", "payloadHash",
             "occurredAt"]
    ensures Distinct(Keys(a.members))
  {
    assert "eventId"[0] != "payload"[0];
  }

  lemma VersionJsonInjective(a: Option<int>, b: Option<int>)
    ensures WellFormed(VersionJson(a))
    ensures Same(VersionJson(a), VersionJson(b)) <==> a == b
  {
    if a.Some? && b.Some? && VersionJson(a) == VersionJson(b) {
      Digits.IntTextInjective(a.value, b.value);
    }
  }

  /** An append whose id is already in the log is answered as a duplicate exactly when it repeats the stored
      event, payload compared up to member order; it never changes a table. */
  lemma DuplicateExactlyWhenSame(sha256: string -> string, t: Tables, input: EventInput, now: string, i: nat)
    requires Inv(sha256, t) && Injective(sha256) && WellFormed(input.payload)
    requires InputError(sha256, input).None?
    requires i < |t.events| && t.events[i].fact.eventId == input.eventId
    ensures Append(sha256, t, input, now).0 == t
    ensures Append(sha256, t, input, now).1 in {Duplicate(t.events[i]), Rejected(IdempotencyConflict)}
    ensures var f := t.events[i].fact;
            Append(sha256, t, input, now).1 == Duplicate(t.events[i]) <==>
              f.sourceDeviceId == input.sourceDeviceId && f.operationType == input.operationType
              && f.entityId == input.entityId && f.expectedVersion == input.expectedVersion
              && f.occurredAt == input.occurredAt.GetOr(now) && Same(Reparse(f.payloadJson), input.payload)
  {
    var f := t.events[i].fact;
    assert FindEvent(t.events, input.eventId) == Some(i);
    assert Stored(sha256, f);
    var p := Reparse(f.payloadJson);
    var g := NewFact(sha256, input, 0, now);
    RequestShape(f, p);
    RequestShape(g, input.payload);
    RequestsPrintSame(RequestJson(f, p).members, f, p, RequestJson(g, input.payload).members, g, input.payload);
    PrintIdentifies(p, input.payload);
  }

  /** Repeating an accepted append, instant included, is a no-op that returns the stored event. */
  lemma RepeatedAppendIsNoOp(sha256: string -> string, t: Tables, input: EventInput, now: string, later: string)
    requires Inv(sha256, t) && Injective(sha256) && WellFormed(input.payload)
    requires input.occurredAt.Some?
    requires Append(sha256, t, input, now).1.Accepted?
    ensures var (t', outcome) := Append(sha256, t, input, now);
            Append(sha256, t', input, later) == (t', Duplicate(outcome.event))
  {
    var (t', outcome) := Append(sha256, t, input, now);
    AppendKeepsAgreement(sha256, t, input, now);
    var i := |t.events|;
    assert t'.events[i] == outcome.event;
    ParseRoundTrip(input.payload);
    NormalizeKeeps(input.payload);
    DuplicateExactlyWhenSame(sha256, t', input, later, i);
  }

  // ---------- The store object ----------

  class EdgeStore {
    const sha256: string -> string
    var events: seq<Event>
    var aggregates: map<string, Aggregate>

    constructor (sha256: string -> string)
      ensures Valid() && View() == Tables([], map[]) && this.sha256 == sha256
    {
      this.sha256 := sha256;
      events := [];
      aggregates := map[];
    }

    function View(): Tables
      reads this
    {
      Tables(events, aggregates)
    }

    ghost predicate Valid()
      reads this
    {
      Inv(sha256, View())
    }

    /** sanitizePayload: copies the safe fields one by one. */
    method SanitizePayload(payload: Json) returns (out: seq<Member>, error: Option<StoreError>)
      ensures error.None? <==>
                payload.Obj? && forall i | 0 <= i < |payload.members| :: payload.members[i].key in SAFE_FIELDS
      ensures error.None? ==> payload == Obj(out)
      ensures error.Some? ==> error.value == if payload.Obj? then FieldNotSupported else PayloadNotObject
    {
      out := [];
      if !payload.Obj? {
        return out, Some(PayloadNotObject);
      }
      for i := 0 to |payload.members|
        invariant out == payload.members[..i]
        invariant forall j | 0 <= j < i :: payload.members[j].key in SAFE_FIELDS
      {
        if payload.members[i].key !in SAFE_FIELDS {
          return out, Some(FieldNotSupported);
        }
        out := out + [payload.members[i]];
      }
      error := None;
    }

    method AppendEvent(input: EventInput, now: string) returns (outcome: Outcome)
      requires Valid() && WellFormed(input.payload)
      modifies this
      ensures Valid()
      ensures (View(), outcome) == Append(sha256, old(View()), input, now)
    {
      AppendKeepsAgreement(sha256, View(), input, now);
      if input.operationType != CHECK_CREATE && input.operationType != CHECK_UPDATE {
        return Rejected(OfflineUnsupported);
      }
      var payload, unsafe := SanitizePayload(input.payload);
      if unsafe.Some? {
        return Rejected(unsafe.value);
      }
      if sha256(Print(Obj(payload))) != input.payloadHash {
        return Rejected(HashMismatch);
      }
      if !IsUuid(input.eventId) {
        return Rejected(NotUuid);
      }
      var at := FindEvent(events, input.eventId);
      if at.Some? {
        var duplicate := events[at.value];
        if sha256(Print(FactRequest(duplicate.fact))) != sha256(Print(InputRequest(sha256, input, now))) {
          return Rejected(IdempotencyConflict);
        }
        return Duplicate(duplicate);
      }
      var next := NextVersion(aggregates, input);
      if next.NoNext? {
        return Rejected(next.error);
      }
      aggregates := aggregates[input.entityId := Aggregate(next.version, Print(Obj(next.state)))];
      var row := NewEvent(sha256, events, input, next.version, now);
      events := events + [row];
      outcome := Accepted(row);
    }

    lemma KeepsInv(eventId: string, state: Option<CloudState>, error: Option<string>)
      ensures Inv(sha256, View()) ==> Inv(sha256, Tables(Mark(events, eventId, state, error), aggregates))
    {
      if Inv(sha256, View()) {
        MarkKeepsAgreement(sha256, View(), eventId, state, error);
      }
    }

    method MarkCloudSynced(eventId: string)
      modifies this
      ensures aggregates == old(aggregates) && OnlyMarked(eventId, old(events), events)
      ensures forall i | 0 <= i < |events| && events[i].fact.eventId == eventId ::
                events[i].cloudState == Synced && events[i].cloudError == None
      ensures old(Valid()) ==> Valid()
    {
      KeepsInv(eventId, Some(Synced), None);
      events := Mark(events, eventId, Some(Synced), None);
    }

    method MarkCloudConflict(eventId: string, message: string)
      modifies this
      ensures aggregates == old(aggregates) && OnlyMarked(eventId, old(events), events)
      ensures forall i | 0 <= i < |events| && events[i].fact.eventId == eventId ::
                events[i].cloudState == Conflict && events[i].cloudError == Some(message)
      ensures old(Valid()) ==> Valid()
    {
      KeepsInv(eventId, Some(Conflict), Some(message));
      events := Mark(events, eventId, Some(Conflict), Some(message));
    }

    method MarkCloudAttemptFailed(eventId: string, message: string)
      modifies this
      ensures aggregates == old(aggregates) && OnlyMarked(eventId, old(events), events)
      ensures forall i | 0 <= i < |events| && events[i].fact.eventId == eventId ::
                events[i].cloudState == old(events)[i].cloudState && events[i].cloudError == Some(message)
      ensures old(Valid()) ==> Valid()
    {
      KeepsInv(eventId, None, Some(message));
      events := Mark(events, eventId, None, Some(message));
    }
  }
}
