/** store.js: which appends are accepted, which error the others get, and what an accepted one stores. */
module AppendRules {
  import opened Options
  import opened CanonicalJson
  import opened EdgeStore

  // ---------- The request ----------

  predicate Hex(s: string) {
    forall i | 0 <= i < |s| :: s[i] in "0123456789abcdefABCDEF"
  }

  ghost predicate UuidGroups(s: string, a: string, b: string, c: string, d: string, e: string) {
    s == UuidOf(a, b, c, d, e) && Hex(a) && Hex(b) && Hex(c) && Hex(d) && Hex(e)
    && |a| == 8 && |b| == 4 && |c| == 4 && |d| == 4 && |e| == 12 && c[0] in "12345678" && d[0] in "89abAB"
  }

  /** 8-4-4-4-12 hexadecimal digits, of version 1 to 8 and of the variant of RFC 9562. */
  ghost predicate UuidForm(s: string) {
    exists a, b, c, d, e :: UuidGroups(s, a, b, c, d, e)
  }

  function UuidOf(a: string, b: string, c: string, d: string, e: string): string {
    a + "-" + b + "-" + c + "-" + d + "-" + e
  }

  lemma HexIs(s: string)
    ensures Hex(s) <==> forall i | 0 <= i < |s| :: IsHex(s[i])
  {
    forall i | 0 <= i < |s| ensures s[i] in "0123456789abcdefABCDEF" <==> IsHex(s[i]) {
      HexChar(s[i]);
    }
  }

  lemma HexChar(c: char)
    ensures c in "0123456789abcdefABCDEF" <==> IsHex(c)
  {
    var digits := "0123456789abcdefABCDEF";
    if '0' <= c <= '9' {
      assert digits[c as int - '0' as int] == c;
    } else if 'a' <= c <= 'f' {
      assert digits[10 + (c as int - 'a' as int)] == c;
    } else if 'A' <= c <= 'F' {
      assert digits[16 + (c as int - 'A' as int)] == c;
    }
  }

  /** The accepted ids are those of that form. */
  lemma UuidExactly(s: string)
    ensures IsUuid(s) <==> UuidForm(s)
  {
    if IsUuid(s) {
      UuidSplits(s);
    }
    if UuidForm(s) {
      var a, b, c, d, e :| UuidGroups(s, a, b, c, d, e);
      UuidParts(s, a, b, c, d, e);
    }
  }

  lemma UuidSplits(s: string)
    requires IsUuid(s)
    ensures UuidForm(s)
  {
    hide UuidGroups;
    GroupsOf(s, s[..8], s[9..13], s[14..18], s[19..23], s[24..]);
  }

  lemma GroupsOf(s: string, a: string, b: string, c: string, d: string, e: string)
    requires IsUuid(s) && a == s[..8] && b == s[9..13] && c == s[14..18] && d == s[19..23] && e == s[24..]
    ensures UuidGroups(s, a, b, c, d, e)
  {
    HexIs(a);
    HexIs(b);
    HexIs(c);
    HexIs(d);
    HexIs(e);
    Joined(s, a, b, c, d, e);
    Variants(c[0], d[0]);
  }

  lemma Joined(s: string, a: string, b: string, c: string, d: string, e: string)
    requires |s| == 36 && a == s[..8] && b == s[9..13] && c == s[14..18] && d == s[19..23] && e == s[24..]
    requires s[8] == s[13] == s[18] == s[23] == '-'
    ensures s == UuidOf(a, b, c, d, e)
  {
  }

  lemma Variants(c: char, d: char)
    ensures c in "12345678" <==> '1' <= c <= '8'
    ensures d in "89abAB" <==> d in {'8', '9', 'a', 'b', 'A', 'B'}
  {
    if '1' <= c <= '8' {
      assert "12345678"[c as int - '1' as int] == c;
    }
    assert "89abAB" == ['8', '9', 'a', 'b', 'A', 'B'];
  }

  lemma UuidParts(s: string, a: string, b: string, c: string, d: string, e: string)
    requires UuidGroups(s, a, b, c, d, e)
    ensures IsUuid(s)
  {
    HexIs(a);
    HexIs(b);
    HexIs(c);
    HexIs(d);
    HexIs(e);
    Placed(s, a, b, c, d, e);
    Variants(c[0], d[0]);
  }

  /** Where the characters of the groups stand. */
  lemma Placed(s: string, a: string, b: string, c: string, d: string, e: string)
    requires |a| == 8 && |b| == 4 && |c| == 4 && |d| == 4 && |e| == 12 && s == UuidOf(a, b, c, d, e)
    ensures |s| == 36 && s[8] == s[13] == s[18] == s[23] == '-' && s[14] == c[0] && s[19] == d[0]
    ensures forall i | 0 <= i < 36 && i !in {8, 13, 18, 23} ::
      s[i] == if i < 8 then a[i] else if i < 13 then b[i - 9] else if i < 18 then c[i - 14]
              else if i < 23 then d[i - 19] else e[i - 24]
  {
  }

  /** One of the two operations. */
  predicate GoodOperation(input: EventInput) {
    input.operationType == "CHECK_CREATE" || input.operationType == "CHECK_UPDATE"
  }

  /** An object of the six fields. */
  predicate GoodPayload(v: Json) {
    v.Obj? && forall i | 0 <= i < |v.members| ::
      v.members[i].key in {"guestName", "guestEmail", "guestPhone", "label", "note", "partySize"}
  }

  predicate GoodHash(sha256: string -> string, input: EventInput) {
    input.payloadHash == sha256(Print(input.payload))
  }

  ghost predicate GoodRequest(sha256: string -> string, input: EventInput) {
    GoodOperation(input) && GoodPayload(input.payload) && GoodHash(sha256, input) && UuidForm(input.eventId)
  }

  lemma FieldNames(key: string)
    ensures key in SAFE_FIELDS
       <==> key in {"guestName", "guestEmail", "guestPhone", "label", "note", "partySize"}
  {
    assert SAFE_FIELDS[0] == "guestName" && SAFE_FIELDS[1] == "guestEmail" && SAFE_FIELDS[2] == "guestPhone";
    assert SAFE_FIELDS[3] == "label" && SAFE_FIELDS[4] == "note" && SAFE_FIELDS[5] == "partySize";
  }

  lemma PayloadIs(v: Json)
    requires v.Obj?
    ensures GoodPayload(v) <==> forall i | 0 <= i < |v.members| :: v.members[i].key in SAFE_FIELDS
  {
    forall i | 0 <= i < |v.members|
      ensures v.members[i].key in SAFE_FIELDS
         <==> v.members[i].key in {"guestName", "guestEmail", "guestPhone", "label", "note", "partySize"}
    {
      FieldNames(v.members[i].key);
    }
  }

  /** A request that is not good is refused with the first error it has, and nothing changes. */
  lemma BadRequestRefused(sha256: string -> string, t: Tables, input: EventInput, now: string)
    requires !GoodRequest(sha256, input)
    ensures Append(sha256, t, input, now) == (t, Rejected(
              if !GoodOperation(input) then OfflineUnsupported
              else if !input.payload.Obj? then PayloadNotObject
              else if !GoodPayload(input.payload) then FieldNotSupported
              else if !GoodHash(sha256, input) then HashMismatch
              else NotUuid))
  {
    UuidExactly(input.eventId);
    if input.payload.Obj? {
      PayloadIs(input.payload);
    }
  }

  lemma GoodRequestPasses(sha256: string -> string, input: EventInput)
    requires GoodRequest(sha256, input)
    ensures InputError(sha256, input).None?
  {
    UuidExactly(input.eventId);
    PayloadIs(input.payload);
  }

  // ---------- The versions ----------

  ghost predicate NewId(t: Tables, input: EventInput) {
    forall i | 0 <= i < |t.events| :: t.events[i].fact.eventId != input.eventId
  }

  lemma NewIdIsNotFound(t: Tables, input: EventInput)
    requires NewId(t, input)
    ensures FindEvent(t.events, input.eventId).None?
  {
  }

  /** A new good request is accepted exactly when it creates an entity without facts and expects no version, or updates
      one and expects as many facts as it has; every other one is refused, with an error that says why. */
  lemma AcceptedExactly(sha256: string -> string, t: Tables, input: EventInput, now: string)
    requires Inv(sha256, t) && GoodRequest(sha256, input) && NewId(t, input)
    ensures var n, expected := |FactsOf(t.events, input.entityId)|, input.expectedVersion;
            var outcome := Append(sha256, t, input, now).1;
            if input.operationType == "CHECK_CREATE" then
              (expected == None && n == 0 ==> outcome.Accepted?)
              && (expected != None ==> outcome == Rejected(VersionNotAllowed))
              && (expected == None && n > 0 ==> outcome == Rejected(AlreadyExists(n)))
            else
              (n > 0 && expected == Some(n) ==> outcome.Accepted?)
              && (expected == None || expected.value <= 0 ==> outcome == Rejected(VersionRequired))
              && (expected != None && expected.value > 0 && n == 0 ==> outcome == Rejected(DoesNotExist))
              && (expected != None && expected.value > 0 && n > 0 && expected.value != n ==>
                    outcome == Rejected(VersionConflict(expected.value, n)))
  {
    GoodRequestPasses(sha256, input);
    NewIdIsNotFound(t, input);
    assert RowAgrees(t, input.entityId);
  }

  /** What an accepted append stores: the next number, the request as it came, the hash and the text of its payload, the
      version that counts the facts of its entity, and a cloud state that waits for the first attempt. */
  lemma AcceptedEvent(sha256: string -> string, t: Tables, input: EventInput, now: string)
    requires Inv(sha256, t) && Append(sha256, t, input, now).1.Accepted?
    ensures var (t', outcome) := Append(sha256, t, input, now);
            var e := outcome.event;
            t'.events == t.events + [e] && e.sequence == |t.events| + 1
            && e.cloudState == Pending && e.cloudAttempts == 0 && e.cloudError == None
            && e.fact.eventId == input.eventId && e.fact.sourceDeviceId == input.sourceDeviceId
            && e.fact.operationType == input.operationType && e.fact.entityId == input.entityId
            && e.fact.expectedVersion == input.expectedVersion
            && e.fact.payloadJson == Print(input.payload) && e.fact.payloadHash == sha256(Print(input.payload))
            && e.fact.occurredAt == (if input.occurredAt.Some? then input.occurredAt.value else now)
            && e.fact.resultVersion == |FactsOf(t.events, input.entityId)| + 1
  {
    AcceptedShape(sha256, t, input, now);
    assert RowAgrees(t, input.entityId);
  }
}
