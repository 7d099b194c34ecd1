/** resource-dining-drift.util.ts: the drift report between seating groups and bookable dining units. */
module DiningDrift {
  import opened Collections
  import opened Digits
  import opened Options
  import opened Sums
  import opened Text

  datatype Zone = Indoor | Outdoor | Unknown

  datatype BucketKey = BucketKey(shopId: string, floor: int, zone: Zone, capacity: int)

  datatype SeatingRow =
    SeatingRow(shopId: string, floor: int, zone: string, capacity: int, totalCount: int, isCustom: bool)

  datatype Section = Section(floor: int, zone: Option<string>)

  datatype DiningRow =
    DiningRow(shopId: string, kind: string, capacity: Option<int>, section: Option<Section>, tableCapacity: Option<int>)

  datatype Bucket = Bucket(key: BucketKey, seating: nat, dining: nat)

  datatype DriftRow = DriftRow(bucket: Bucket, delta: int)

  // ---------- Keys ----------

  function NormalizeZone(raw: Option<string>): Zone {
    if raw == None || Trim(raw.value) == "" then Unknown
    else if Upper(Trim(raw.value)) == "INDOOR" then Indoor
    else if Upper(Trim(raw.value)) == "OUTDOOR" then Outdoor
    else Unknown
  }

  function ZoneText(z: Zone): string {
    match z
    case Indoor => "INDOOR"
    case Outdoor => "OUTDOOR"
    case Unknown => "UNKNOWN"
  }

  function Barred(front: string, last: string): string {
    front + "|" + last
  }

  /** shopId|fFLOOR|ZONE|cCAPACITY */
  function KeyString(k: BucketKey): string {
    Barred(Barred(Barred(k.shopId, "f" + IntText(k.floor)), ZoneText(k.zone)), "c" + IntText(k.capacity))
  }

  /** The key text with its floor and capacity in decimal digits. */
  lemma KeyStringReads(k: BucketKey, floor: string, capacity: string)
    requires k.floor >= 0 && k.capacity >= 0 && floor == NatText(k.floor) && capacity == NatText(k.capacity)
    ensures AllDigits(floor) && Value(floor) == k.floor && AllDigits(capacity) && Value(capacity) == k.capacity
    ensures KeyString(k) == k.shopId + "|f" + floor + "|"
      + (match k.zone case Indoor => "INDOOR" case Outdoor => "OUTDOOR" case Unknown => "UNKNOWN") + "|c" + capacity
  {
    Bars(k.shopId, floor, ZoneText(k.zone), capacity);
    hide Barred, Value, AllDigits;
  }

  lemma Bars(shopId: string, floor: string, zone: string, capacity: string)
    ensures Barred(Barred(Barred(shopId, "f" + floor), zone), "c" + capacity)
         == shopId + "|f" + floor + "|" + zone + "|c" + capacity
  {
    var front := Barred(Barred(shopId, "f" + floor), zone);
    OneBar(shopId, "f", floor);
    OneBar(front, "c", capacity);
    assert "|" + "f" == "|f" && "|" + "c" == "|c";
  }

  lemma OneBar(front: string, letter: string, last: string)
    ensures Barred(front, letter + last) == front + ("|" + letter) + last
  {
  }

  lemma ShorterFront(a: string, u: string, b: string, v: string)
    requires Barred(a, u) == Barred(b, v) && |a| < |b|
    ensures '|' in u
  {
    assert Barred(b, v)[|b|] == '|';
    assert u[|b| - |a| - 1] == '|';
  }

  /** The part before the last bar and the part after it are determined. */
  lemma SplitAtLastBar(a: string, u: string, b: string, v: string)
    requires Barred(a, u) == Barred(b, v) && '|' !in u && '|' !in v
    ensures a == b && u == v
  {
    if |a| < |b| {
      ShorterFront(a, u, b, v);
    } else if |a| > |b| {
      ShorterFront(b, v, a, u);
    } else {
      assert a == Barred(a, u)[..|a|] == b;
      assert u == Barred(a, u)[|a| + 1..] == v;
    }
  }

  lemma NumberPart(c: char, n: int)
    requires c != '|'
    ensures '|' !in [c] + IntText(n)
  {
  }

  lemma NumberPartInjective(c: char, m: int, n: int)
    requires [c] + IntText(m) == [c] + IntText(n)
    ensures m == n
  {
    assert IntText(m) == ([c] + IntText(m))[1..] == ([c] + IntText(n))[1..] == IntText(n);
    IntTextInjective(m, n);
  }

  lemma FourParts(a: string, f: string, z: string, c: string, b: string, g: string, y: string, d: string)
    requires Barred(Barred(Barred(a, f), z), c) == Barred(Barred(Barred(b, g), y), d)
    requires '|' !in f && '|' !in z && '|' !in c && '|' !in g && '|' !in y && '|' !in d
    ensures a == b && f == g && z == y && c == d
  {
    SplitAtLastBar(Barred(Barred(a, f), z), c, Barred(Barred(b, g), y), d);
    SplitAtLastBar(Barred(a, f), z, Barred(b, g), y);
    SplitAtLastBar(a, f, b, g);
  }

  lemma ZonePart(z: Zone, y: Zone)
    ensures '|' !in ZoneText(z) && (ZoneText(z) == ZoneText(y) ==> z == y)
  {
    assert |ZoneText(Outdoor)| == 7 && |ZoneText(Indoor)| == 6 && |ZoneText(Unknown)| == 7;
    assert ZoneText(Outdoor)[0] != ZoneText(Unknown)[0];
  }

  /** A key is recovered from its text even when the shop id holds bars. */
  lemma KeyStringInjective(a: BucketKey, b: BucketKey)
    requires KeyString(a) == KeyString(b)
    ensures a == b
  {
    NumberPart('c', a.capacity);
    NumberPart('c', b.capacity);
    NumberPart('f', a.floor);
    NumberPart('f', b.floor);
    ZonePart(a.zone, b.zone);
    ZonePart(b.zone, a.zone);
    FourParts(a.shopId, "f" + IntText(a.floor), ZoneText(a.zone), "c" + IntText(a.capacity),
      b.shopId, "f" + IntText(b.floor), ZoneText(b.zone), "c" + IntText(b.capacity));
    NumberPartInjective('c', a.capacity, b.capacity);
    NumberPartInjective('f', a.floor, b.floor);
  }

  // ---------- What rows count ----------

  /** What a row adds to which bucket. */
  datatype Entry = Skipped | Counted(key: BucketKey, add: nat)

  function AtLeastOne(n: int): int {
    if n > 1 then n else 1
  }

  function SeatingEntry(row: SeatingRow): Entry {
    if row.isCustom || row.capacity < 1 then Skipped
    else
      Counted(BucketKey(row.shopId, AtLeastOne(row.floor), NormalizeZone(Some(row.zone)), row.capacity),
        if row.totalCount > 0 then row.totalCount else 0)
  }

  function DiningCapacity(row: DiningRow): Option<int> {
    if row.capacity != None && row.capacity.value >= 1 then row.capacity
    else if row.tableCapacity != None && row.tableCapacity.value >= 1 then row.tableCapacity
    else None
  }

  function DiningEntry(row: DiningRow): Entry {
    if row.kind != "DINING" || DiningCapacity(row) == None then Skipped
    else
      var floor := if row.section == None then 1 else row.section.value.floor;
      var zone := if row.section == None then None else row.section.value.zone;
      Counted(BucketKey(row.shopId, AtLeastOne(floor), NormalizeZone(zone), DiningCapacity(row).value), 1)
  }

  function EntriesOf<R>(rows: seq<R>, entry: R -> Entry): (entries: seq<Entry>)
    ensures |entries| == |rows| && forall i | 0 <= i < |rows| :: entries[i] == entry(rows[i])
  {
    seq(|rows|, i requires 0 <= i < |rows| => entry(rows[i]))
  }

  lemma EntriesNext<R>(rows: seq<R>, entry: R -> Entry, n: nat)
    requires n < |rows|
    ensures EntriesOf(rows[..n + 1], entry) == EntriesOf(rows[..n], entry) + [entry(rows[n])]
  {
  }

  function SeatingEntries(rows: seq<SeatingRow>): seq<Entry> {
    EntriesOf(rows, SeatingEntry)
  }

  function DiningEntries(rows: seq<DiningRow>): seq<Entry> {
    EntriesOf(rows, DiningEntry)
  }

  function Share(e: Entry, key: BucketKey): nat {
    if e.Counted? && e.key == key then e.add else 0
  }

  /** The true total of a bucket. */
  function Tally(entries: seq<Entry>, key: BucketKey): nat {
    if entries == [] then 0 else Tally(entries[..|entries| - 1], key) + Share(entries[|entries| - 1], key)
  }

  function GrandTotal(entries: seq<Entry>): nat {
    if entries == [] then 0
    else
      var e := entries[|entries| - 1];
      GrandTotal(entries[..|entries| - 1]) + (if e.Counted? then e.add else 0)
  }

  // ---------- The maps ----------

  datatype Counter = Counter(key: BucketKey, count: nat)

  function CountIn(m: map<string, Counter>, key: BucketKey): nat {
    if KeyString(key) in m then m[KeyString(key)].count else 0
  }

  /** Every entry stands under the text of its own key and counts something. */
  ghost predicate WellKeyed(m: map<string, Counter>) {
    forall id | id in m :: id == KeyString(m[id].key) && m[id].count > 0
  }

  /** The map holds the positive totals of the entries, each under the text of its own key. */
  ghost predicate Tallies(m: map<string, Counter>, entries: seq<Entry>) {
    WellKeyed(m) && forall key :: CountIn(m, key) == Tally(entries, key)
  }

  function Bump(m: map<string, Counter>, key: BucketKey, add: nat): map<string, Counter> {
    var id := KeyString(key);
    if add == 0 then m
    else if id in m then m[id := m[id].(count := m[id].count + add)]
    else m[id := Counter(key, add)]
  }

  lemma BumpCounts(m: map<string, Counter>, key: BucketKey, add: nat, other: BucketKey)
    ensures CountIn(Bump(m, key, add), other) == CountIn(m, other) + (if other == key then add else 0)
  {
    if KeyString(other) == KeyString(key) {
      KeyStringInjective(other, key);
    }
  }

  lemma TallyNext(entries: seq<Entry>, e: Entry, key: BucketKey)
    ensures Tally(entries + [e], key) == Tally(entries, key) + Share(e, key)
  {
    assert (entries + [e])[..|entries|] == entries;
  }

  lemma BumpTallies(m: map<string, Counter>, entries: seq<Entry>, e: Entry)
    requires Tallies(m, entries)
    ensures Tallies(if e.Counted? then Bump(m, e.key, e.add) else m, entries + [e])
  {
    forall key
      ensures CountIn(if e.Counted? then Bump(m, e.key, e.add) else m, key) == Tally(entries + [e], key)
    {
      TallyNext(entries, e, key);
      if e.Counted? {
        BumpCounts(m, e.key, e.add, key);
      }
    }
  }

  method SeatingTotalsFromRows(rows: seq<SeatingRow>) returns (m: map<string, Counter>)
    ensures Tallies(m, SeatingEntries(rows))
  {
    m := map[];
    for i := 0 to |rows|
      invariant Tallies(m, SeatingEntries(rows[..i]))
    {
      var row := rows[i];
      EntriesNext(rows, SeatingEntry, i);
      BumpTallies(m, SeatingEntries(rows[..i]), SeatingEntry(row));
      if row.isCustom {
        continue;
      }
      if row.capacity < 1 {
        continue;
      }
      var key := BucketKey(row.shopId, AtLeastOne(row.floor), NormalizeZone(Some(row.zone)), row.capacity);
      m := Bump(m, key, if row.totalCount > 0 then row.totalCount else 0);
    }
    assert rows[..|rows|] == rows;
  }

  method DiningCountsFromRows(rows: seq<DiningRow>) returns (m: map<string, Counter>)
    ensures Tallies(m, DiningEntries(rows))
  {
    m := map[];
    for i := 0 to |rows|
      invariant Tallies(m, DiningEntries(rows[..i]))
    {
      var row := rows[i];
      EntriesNext(rows, DiningEntry, i);
      BumpTallies(m, DiningEntries(rows[..i]), DiningEntry(row));
      if row.kind != "DINING" {
        continue;
      }
      var capacity := DiningCapacity(row);
      if capacity == None {
        continue;
      }
      var floor := if row.section == None then 1 else row.section.value.floor;
      var zone := if row.section == None then None else row.section.value.zone;
      m := Bump(m, BucketKey(row.shopId, AtLeastOne(floor), NormalizeZone(zone), capacity.value), 1);
    }
    assert rows[..|rows|] == rows;
  }

  // ---------- Merging ----------

  ghost predicate DistinctKeys(buckets: seq<Bucket>) {
    forall i, j | 0 <= i < j < |buckets| :: buckets[i].key != buckets[j].key
  }

  ghost predicate Listed(buckets: seq<Bucket>, key: BucketKey) {
    exists b :: b in buckets && b.key == key
  }

  /** One bucket, with both true totals, for every key that either side counts, and no other. */
  ghost predicate Merged(buckets: seq<Bucket>, seating: seq<Entry>, dining: seq<Entry>) {
    DistinctKeys(buckets)
    && (forall b | b in buckets :: b.seating == Tally(seating, b.key) && b.dining == Tally(dining, b.key))
    && forall key :: Listed(buckets, key) <==> Tally(seating, key) > 0 || Tally(dining, key) > 0
  }

  function BucketOf(seating: map<string, Counter>, dining: map<string, Counter>, id: string): Bucket
    requires id in seating || id in dining
  {
    Bucket(if id in seating then seating[id].key else dining[id].key,
      if id in seating then seating[id].count else 0, if id in dining then dining[id].count else 0)
  }

  /** One bucket for each id of either map, one-sided ones included. */
  ghost predicate OnePerId(out: seq<Bucket>, ids: seq<string>, seating: map<string, Counter>,
      dining: map<string, Counter>)
  {
    |out| == |ids|
    && (forall i | 0 <= i < |ids| ::
      (ids[i] in seating || ids[i] in dining) && out[i] == BucketOf(seating, dining, ids[i]))
    && Distinct(ids)
  }

  ghost predicate AllIds(ids: seq<string>, seating: map<string, Counter>, dining: map<string, Counter>) {
    forall id | id in seating || id in dining :: id in ids
  }

  /** What a comparison such as localeCompare promises: a total preorder of texts. */
  ghost predicate Compares(compare: (string, string) -> int) {
    (forall a, b :: compare(a, b) <= 0 || compare(b, a) <= 0)
    && forall a, b, c :: compare(a, b) <= 0 && compare(b, c) <= 0 ==> compare(a, c) <= 0
  }

  /** The order of buckets by the texts of their keys. */
  function ByKeyText(compare: (string, string) -> int): (Bucket, Bucket) -> bool {
    (a: Bucket, b: Bucket) => compare(KeyString(a.key), KeyString(b.key)) <= 0
  }

  lemma ByKeyTextIsOrder(compare: (string, string) -> int)
    requires Compares(compare)
    ensures Preorder(ByKeyText(compare))
  {
    var leq := ByKeyText(compare);
    forall a, b ensures leq(a, b) || leq(b, a) {
      TextsTotal(compare, KeyString(a.key), KeyString(b.key));
    }
    forall a, b, c | leq(a, b) && leq(b, c) ensures leq(a, c) {
      TextsTransitive(compare, KeyString(a.key), KeyString(b.key), KeyString(c.key));
    }
  }

  lemma TextsTotal(compare: (string, string) -> int, a: string, b: string)
    requires Compares(compare)
    ensures compare(a, b) <= 0 || compare(b, a) <= 0
  {
  }

  lemma TextsTransitive(compare: (string, string) -> int, a: string, b: string, c: string)
    requires Compares(compare) && compare(a, b) <= 0 && compare(b, c) <= 0
    ensures compare(a, c) <= 0
  {
  }

  lemma InsertKeepsIds(out: seq<Bucket>, ids: seq<string>, seating: map<string, Counter>, dining: map<string, Counter>,
                       id: string, b: Bucket, p: nat)
    requires OnePerId(out, ids, seating, dining) && p <= |ids|
    requires (id in seating || id in dining) && b == BucketOf(seating, dining, id) && id !in ids
    ensures OnePerId(InsertAt(out, p, b), InsertAt(ids, p, id), seating, dining)
  {
    InsertAtIs(out, p, b);
    InsertAtIs(ids, p, id);
  }

  method MergeInventoryBuckets(seating: map<string, Counter>, dining: map<string, Counter>,
                               compare: (string, string) -> int)
    returns (out: seq<Bucket>)
    requires Compares(compare)
    ensures exists ids :: OnePerId(out, ids, seating, dining) && AllIds(ids, seating, dining)
    ensures Ordered(out, ByKeyText(compare))
  {
    var rest := seating.Keys + dining.Keys;
    ghost var ids: seq<string> := [];
    var listed: seq<Bucket> := [];
    while rest != {}
      invariant rest <= seating.Keys + dining.Keys
      invariant OnePerId(listed, ids, seating, dining)
      invariant forall id | id in seating || id in dining :: id in rest <==> id !in ids
      decreases |rest|
    {
      var k :| k in rest;
      listed, ids := listed + [BucketOf(seating, dining, k)], ids + [k];
      rest := rest - {k};
    }
    assert AllIds(ids, seating, dining);
    ByKeyTextIsOrder(compare);
    out, ids := SortBuckets(listed, ByKeyText(compare), ids, seating, dining);
  }

  /** out.sort: inserting one after the other. */
  method SortBuckets(listed: seq<Bucket>, leq: (Bucket, Bucket) -> bool,
                     ghost ids: seq<string>, ghost seating: map<string, Counter>, ghost dining: map<string, Counter>)
    returns (out: seq<Bucket>, ghost outIds: seq<string>)
    requires Preorder(leq) && OnePerId(listed, ids, seating, dining) && AllIds(ids, seating, dining)
    ensures Ordered(out, leq) && OnePerId(out, outIds, seating, dining) && AllIds(outIds, seating, dining)
  {
    out, outIds := [], [];
    for n := 0 to |listed|
      invariant Ordered(out, leq) && OnePerId(out, outIds, seating, dining)
      invariant forall id :: id in outIds <==> id in ids[..n]
    {
      var p := Place(listed[n], out, leq);
      NextOfDistinct(ids, n, n + 1);
      InsertKeepsOrder(listed[n], out, leq);
      InsertKeepsIds(out, outIds, seating, dining, ids[n], listed[n], p);
      InsertAtMembers(outIds, p, ids[n]);
      out, outIds := InsertAt(out, p, listed[n]), InsertAt(outIds, p, ids[n]);
    }
    assert ids[..|listed|] == ids;
  }

  lemma BucketCounts(seating: map<string, Counter>, dining: map<string, Counter>, s: seq<Entry>, d: seq<Entry>,
      id: string)
    requires Tallies(seating, s) && Tallies(dining, d) && (id in seating || id in dining)
    ensures var b := BucketOf(seating, dining, id);
      KeyString(b.key) == id && b.seating == Tally(s, b.key) && b.dining == Tally(d, b.key)
  {
    var b := BucketOf(seating, dining, id);
    assert CountIn(seating, b.key) == Tally(s, b.key) && CountIn(dining, b.key) == Tally(d, b.key);
  }

  /** Merging the maps of the two row lists gives the merged inventory. */
  lemma MergeIsMerged(out: seq<Bucket>, ids: seq<string>, seating: map<string, Counter>, dining: map<string, Counter>,
                      s: seq<Entry>, d: seq<Entry>)
    requires Tallies(seating, s) && Tallies(dining, d) && OnePerId(out, ids, seating, dining)
    requires AllIds(ids, seating, dining)
    ensures Merged(out, s, d)
  {
    forall i | 0 <= i < |ids|
      ensures KeyString(out[i].key) == ids[i]
      ensures out[i].seating == Tally(s, out[i].key) && out[i].dining == Tally(d, out[i].key)
    {
      BucketCounts(seating, dining, s, d, ids[i]);
    }
    forall key
      ensures Listed(out, key) <==> Tally(s, key) > 0 || Tally(d, key) > 0
    {
      assert CountIn(seating, key) == Tally(s, key) && CountIn(dining, key) == Tally(d, key);
      var id := KeyString(key);
      if id in seating || id in dining {
        var i :| 0 <= i < |ids| && ids[i] == id;
        KeyStringInjective(out[i].key, key);
        assert out[i] in out;
      }
    }
  }

  // ---------- Drift ----------

  function Delta(b: Bucket): int {
    b.seating - b.dining
  }

  function DriftRows(buckets: seq<Bucket>): seq<DriftRow> {
    if buckets == [] then [] else
      var b := buckets[|buckets| - 1];
      DriftRows(buckets[..|buckets| - 1]) + (if Delta(b) != 0 then [DriftRow(b, Delta(b))] else [])
  }

  lemma {:induction false} DriftRowsAre(buckets: seq<Bucket>, r: DriftRow)
    ensures r in DriftRows(buckets) <==> r.bucket in buckets && r.delta == Delta(r.bucket) != 0
  {
    if buckets != [] {
      DriftRowsAre(buckets[..|buckets| - 1], r);
      assert buckets == buckets[..|buckets| - 1] + [buckets[|buckets| - 1]];
    }
  }

  ghost predicate SameTallies(seating: seq<Entry>, dining: seq<Entry>) {
    forall key :: Tally(seating, key) == Tally(dining, key)
  }

  /** The report is empty exactly when both sides agree on every key. */
  lemma NoDriftIffAgreed(buckets: seq<Bucket>, seating: seq<Entry>, dining: seq<Entry>)
    requires Merged(buckets, seating, dining)
    ensures DriftRows(buckets) == [] <==> SameTallies(seating, dining)
  {
    if DriftRows(buckets) == [] {
      forall key
        ensures Tally(seating, key) == Tally(dining, key)
      {
        if Listed(buckets, key) {
          var b :| b in buckets && b.key == key;
          DriftRowsAre(buckets, DriftRow(b, Delta(b)));
        }
      }
    } else {
      var r := DriftRows(buckets)[0];
      DriftRowsAre(buckets, r);
      assert Tally(seating, r.bucket.key) != Tally(dining, r.bucket.key);
    }
  }

  function SumDeltas(rows: seq<DriftRow>): int {
    if rows == [] then 0 else SumDeltas(rows[..|rows| - 1]) + rows[|rows| - 1].delta
  }

  /** The totals of the listed buckets. */
  function SumTally(buckets: seq<Bucket>, entries: seq<Entry>): nat {
    if buckets == [] then 0
    else SumTally(buckets[..|buckets| - 1], entries) + Tally(entries, buckets[|buckets| - 1].key)
  }

  function SumShare(buckets: seq<Bucket>, e: Entry): nat {
    if buckets == [] then 0 else SumShare(buckets[..|buckets| - 1], e) + Share(e, buckets[|buckets| - 1].key)
  }

  lemma {:induction false} SumTallyNext(buckets: seq<Bucket>, entries: seq<Entry>, e: Entry)
    ensures SumTally(buckets, entries + [e]) == SumTally(buckets, entries) + SumShare(buckets, e)
  {
    if buckets != [] {
      SumTallyNext(buckets[..|buckets| - 1], entries, e);
      TallyNext(entries, e, buckets[|buckets| - 1].key);
    }
  }

  lemma {:induction false} SumTallyNone(buckets: seq<Bucket>)
    ensures SumTally(buckets, []) == 0
  {
    if buckets != [] {
      SumTallyNone(buckets[..|buckets| - 1]);
    }
  }

  lemma {:induction false} SumShareOnce(buckets: seq<Bucket>, e: Entry)
    requires DistinctKeys(buckets)
    ensures SumShare(buckets, e) == if e.Counted? && Listed(buckets, e.key) then e.add else 0
  {
    if buckets != [] {
      var front, last := buckets[..|buckets| - 1], buckets[|buckets| - 1];
      SumShareOnce(front, e);
      assert buckets == front + [last];
      assert last in buckets;
      if e.Counted? && e.key != last.key && Listed(buckets, e.key) {
        var b :| b in buckets && b.key == e.key;
        assert b in front;
      }
      if e.Counted? && Listed(front, e.key) {
        var b :| b in front && b.key == e.key;
        assert b in buckets;
      }
    }
  }

  /** Buckets for all counted keys hold, between them, everything counted. */
  lemma {:induction false} SumTallyIsGrand(buckets: seq<Bucket>, entries: seq<Entry>)
    requires DistinctKeys(buckets)
    requires forall e | e in entries && e.Counted? && e.add > 0 :: Listed(buckets, e.key)
    ensures SumTally(buckets, entries) == GrandTotal(entries)
  {
    if entries == [] {
      SumTallyNone(buckets);
    } else {
      var front, e := entries[..|entries| - 1], entries[|entries| - 1];
      assert entries == front + [e];
      SumTallyIsGrand(buckets, front);
      SumTallyNext(buckets, front, e);
      SumShareOnce(buckets, e);
      assert e in entries;
    }
  }

  lemma {:induction false} TallyCounts(entries: seq<Entry>, e: Entry)
    requires e in entries && e.Counted? && e.add > 0
    ensures Tally(entries, e.key) > 0
  {
    if entries[|entries| - 1] != e {
      assert entries == entries[..|entries| - 1] + [entries[|entries| - 1]];
      TallyCounts(entries[..|entries| - 1], e);
    }
  }

  lemma {:induction false} SumDeltasIs(buckets: seq<Bucket>, seating: seq<Entry>, dining: seq<Entry>)
    requires forall b | b in buckets :: b.seating == Tally(seating, b.key) && b.dining == Tally(dining, b.key)
    ensures SumDeltas(DriftRows(buckets)) == SumTally(buckets, seating) - SumTally(buckets, dining)
  {
    if buckets != [] {
      var front, b := buckets[..|buckets| - 1], buckets[|buckets| - 1];
      assert buckets == front + [b];
      SumDeltasIs(front, seating, dining);
      assert b in buckets;
      var rows := DriftRows(front);
      if Delta(b) != 0 {
        assert (rows + [DriftRow(b, Delta(b))])[..|rows|] == rows;
      } else {
        assert rows + [] == rows;
      }
    }
  }

  /** The deltas of the report add up to the difference of the grand totals. */
  lemma DeltasAddUp(buckets: seq<Bucket>, seating: seq<Entry>, dining: seq<Entry>)
    requires Merged(buckets, seating, dining)
    ensures SumDeltas(DriftRows(buckets)) == GrandTotal(seating) - GrandTotal(dining)
  {
    SumDeltasIs(buckets, seating, dining);
    forall e | e in seating && e.Counted? && e.add > 0
      ensures Listed(buckets, e.key)
    {
      TallyCounts(seating, e);
    }
    forall e | e in dining && e.Counted? && e.add > 0
      ensures Listed(buckets, e.key)
    {
      TallyCounts(dining, e);
    }
    SumTallyIsGrand(buckets, seating);
    SumTallyIsGrand(buckets, dining);
  }

  // ---------- Row order ----------

  lemma {:induction false} TallyConcat(a: seq<Entry>, b: seq<Entry>, key: BucketKey)
    ensures Tally(a + b, key) == Tally(a, key) + Tally(b, key)
  {
    if b == [] {
      assert a + b == a;
    } else {
      var front, e := b[..|b| - 1], b[|b| - 1];
      TallyConcat(a, front, key);
      assert a + b == (a + front) + [e] && b == front + [e];
      TallyNext(a + front, e, key);
      TallyNext(front, e, key);
    }
  }

  lemma TallyWithout<R>(rows: seq<R>, entry: R -> Entry, k: nat, key: BucketKey)
    requires k < |rows|
    ensures Tally(EntriesOf(rows, entry), key)
      == Tally(EntriesOf(rows[..k] + rows[k + 1..], entry), key) + Share(entry(rows[k]), key)
  {
    var before, after := EntriesOf(rows[..k], entry), EntriesOf(rows[k + 1..], entry);
    assert EntriesOf(rows, entry) == before + [entry(rows[k])] + after;
    assert EntriesOf(rows[..k] + rows[k + 1..], entry) == before + after;
    TallyConcat(before + [entry(rows[k])], after, key);
    TallyNext(before, entry(rows[k]), key);
    TallyConcat(before, after, key);
  }

  lemma MatchLast<R>(rows: seq<R>, other: seq<R>, last: nat) returns (k: nat)
    requires multiset(rows) == multiset(other) && |rows| == last + 1
    ensures k < |other| && other[k] == rows[last]
    ensures multiset(rows[..last]) == multiset(other[..k] + other[k + 1..])
  {
    assert rows[last] in multiset(other);
    k :| 0 <= k < |other| && other[k] == rows[last];
    assert rows[..last] + rows[last + 1..] == rows[..last];
    WithoutOne(rows, last);
    WithoutOne(other, k);
  }

  lemma WithoutOne<R>(rows: seq<R>, k: nat)
    requires k < |rows|
    ensures multiset(rows[..k] + rows[k + 1..]) == multiset(rows) - multiset{rows[k]}
  {
    assert rows == rows[..k] + [rows[k]] + rows[k + 1..];
  }

  /** Totals do not depend on the order of the rows. */
  lemma {:induction false} TallyIgnoresOrder<R>(rows: seq<R>, other: seq<R>, entry: R -> Entry, key: BucketKey)
    requires multiset(rows) == multiset(other)
    ensures Tally(EntriesOf(rows, entry), key) == Tally(EntriesOf(other, entry), key)
    decreases |rows|
  {
    if rows == [] {
      assert |multiset(other)| == 0;
    } else {
      var last := |rows| - 1;
      var k := MatchLast(rows, other, last);
      TallyIgnoresOrder(rows[..last], other[..k] + other[k + 1..], entry, key);
      TallyWithout(other, entry, k, key);
      TallyWithout(rows, entry, last, key);
      assert rows[..last] + rows[last + 1..] == rows[..last];
    }
  }

  // ---------- What a row counts ----------

  /** The zone a text names, whatever its case and the white space around it. */
  predicate Names(zone: Zone, text: string) {
    var name := Upper(Trim(text));
    match zone
    case Indoor => name == "INDOOR"
    case Outdoor => name == "OUTDOOR"
    case Unknown => name != "INDOOR" && name != "OUTDOOR"
  }

  /** The key's floor is that of the row, or the first. */
  predicate OnFloor(key: BucketKey, floor: int) {
    key.floor == if floor > 1 then floor else 1
  }

  /** A group that is not custom counts its tables, if any, in the bucket of its floor, zone and capacity. */
  function SeatingCount(row: SeatingRow, key: BucketKey): nat {
    if !row.isCustom && row.capacity >= 1 && row.totalCount > 0 && key.shopId == row.shopId && OnFloor(key, row.floor)
       && Names(key.zone, row.zone) && key.capacity == row.capacity
    then row.totalCount else 0
  }

  /** A dining unit counts one, with its own capacity or else that of its table group; without a section it stands on
      the first floor of an unknown zone. */
  function DiningCount(row: DiningRow, key: BucketKey): nat {
    if row.kind == "DINING" && key.shopId == row.shopId && key.capacity >= 1
       && (row.capacity == Some(key.capacity)
           || (row.tableCapacity == Some(key.capacity) && (row.capacity.Some? ==> row.capacity.value < 1)))
       && OnFloor(key, if row.section.Some? then row.section.value.floor else 1)
       && Names(key.zone, if row.section.Some? then row.section.value.zone.GetOr("") else "")
    then 1 else 0
  }

  lemma NoNameIsUnknown()
    ensures Upper(Trim("")) == ""
  {
  }

  lemma ZoneExactly(raw: Option<string>, zone: Zone)
    ensures NormalizeZone(raw) == zone <==> Names(zone, raw.GetOr(""))
  {
    NoNameIsUnknown();
    assert |"INDOOR"| == 6 && |"OUTDOOR"| == 7;
  }

  lemma SeatingCounts(row: SeatingRow, key: BucketKey)
    ensures Share(SeatingEntry(row), key) == SeatingCount(row, key)
  {
    ZoneExactly(Some(row.zone), key.zone);
  }

  lemma DiningCounts(row: DiningRow, key: BucketKey)
    ensures Share(DiningEntry(row), key) == DiningCount(row, key)
  {
    ZoneExactly(if row.section == None then None else row.section.value.zone, key.zone);
  }

  function Shares<R>(rows: seq<R>, count: (R, BucketKey) -> nat, key: BucketKey): seq<int> {
    seq(|rows|, i requires 0 <= i < |rows| => count(rows[i], key))
  }

  /** The totals are sums over the rows. */
  lemma {:induction false} TallyIsSum<R>(rows: seq<R>, entry: R -> Entry, count: (R, BucketKey) -> nat, key: BucketKey)
    requires forall row: R :: Share(entry(row), key) == count(row, key)
    ensures Tally(EntriesOf(rows, entry), key) == Sum(Shares(rows, count, key))
  {
    if rows == [] {
      assert Shares(rows, count, key) == [];
    } else {
      var n := |rows| - 1;
      TallyIsSum(rows[..n], entry, count, key);
      EntriesNext(rows, entry, n);
      assert rows[..n + 1] == rows;
      TallyNext(EntriesOf(rows[..n], entry), entry(rows[n]), key);
      assert Shares(rows, count, key) == Shares(rows[..n], count, key) + [count(rows[n], key) as int];
      SumAppend(Shares(rows[..n], count, key), count(rows[n], key));
    }
  }

  lemma TotalsAreSums(seating: seq<SeatingRow>, dining: seq<DiningRow>, key: BucketKey)
    ensures SeatingTally(seating, key) == Sum(Shares(seating, SeatingCount, key))
    ensures DiningTally(dining, key) == Sum(Shares(dining, DiningCount, key))
  {
    forall row ensures Share(SeatingEntry(row), key) == SeatingCount(row, key) {
      SeatingCounts(row, key);
    }
    forall row ensures Share(DiningEntry(row), key) == DiningCount(row, key) {
      DiningCounts(row, key);
    }
    TallyIsSum(seating, SeatingEntry, SeatingCount, key);
    TallyIsSum(dining, DiningEntry, DiningCount, key);
  }

  // ---------- The report ----------

  const SAMPLE_CAP: nat := 40

  datatype Report = Report(shopsCompared: nat, bucketsCompared: nat, matchedBuckets: nat, driftedBuckets: nat,
                           drifts: seq<DriftRow>, samples: seq<DriftRow>)

  function DiningRows(resources: seq<DiningRow>): seq<DiningRow> {
    if resources == [] then []
    else
      var r := resources[|resources| - 1];
      DiningRows(resources[..|resources| - 1]) + (if r.kind == "DINING" then [r] else [])
  }

  function Shops(rows: seq<DiningRow>): set<string> {
    set r | r in rows :: r.shopId
  }

  function GroupsOf(groups: seq<SeatingRow>, shops: set<string>): seq<SeatingRow> {
    if groups == [] then []
    else
      var g := groups[|groups| - 1];
      GroupsOf(groups[..|groups| - 1], shops) + (if g.shopId in shops && !g.isCustom then [g] else [])
  }

  lemma EntriesSnoc<R>(rows: seq<R>, r: R, entry: R -> Entry, key: BucketKey)
    ensures Tally(EntriesOf(rows + [r], entry), key) == Tally(EntriesOf(rows, entry), key) + Share(entry(r), key)
  {
    assert EntriesOf(rows + [r], entry) == EntriesOf(rows, entry) + [entry(r)];
    TallyNext(EntriesOf(rows, entry), entry(r), key);
  }

  function DiningTally(rows: seq<DiningRow>, key: BucketKey): nat {
    Tally(DiningEntries(rows), key)
  }

  function SeatingTally(rows: seq<SeatingRow>, key: BucketKey): nat {
    Tally(SeatingEntries(rows), key)
  }

  lemma DiningSnoc(rows: seq<DiningRow>, r: DiningRow, key: BucketKey) returns (share: nat)
    ensures DiningTally(rows + [r], key) == DiningTally(rows, key) + share
    ensures share == Share(DiningEntry(r), key)
    ensures r.kind != "DINING" || r.shopId != key.shopId ==> share == 0
  {
    EntriesSnoc(rows, r, DiningEntry, key);
    share := Share(DiningEntry(r), key);
  }

  lemma SeatingSnoc(rows: seq<SeatingRow>, r: SeatingRow, key: BucketKey) returns (share: nat)
    ensures SeatingTally(rows + [r], key) == SeatingTally(rows, key) + share
    ensures share == Share(SeatingEntry(r), key)
    ensures r.isCustom || r.shopId != key.shopId ==> share == 0
  {
    EntriesSnoc(rows, r, SeatingEntry, key);
    share := Share(SeatingEntry(r), key);
  }

  lemma {:induction false} OtherResourcesDoNotCount(resources: seq<DiningRow>, key: BucketKey)
    ensures DiningTally(DiningRows(resources), key) == DiningTally(resources, key)
    ensures key.shopId !in Shops(DiningRows(resources)) ==> DiningTally(resources, key) == 0
  {
    if resources != [] {
      var front, r := resources[..|resources| - 1], resources[|resources| - 1];
      OtherResourcesDoNotCount(front, key);
      assert resources == front + [r];
      var share := DiningSnoc(front, r, key);
      if r.kind == "DINING" {
        var kept := DiningSnoc(DiningRows(front), r, key);
        assert forall q | q in DiningRows(front) :: q in DiningRows(resources);
        assert r in DiningRows(resources);
      } else {
        assert DiningRows(resources) == DiningRows(front);
      }
    }
  }

  lemma {:induction false} OtherShopsDoNotCount(groups: seq<SeatingRow>, shops: set<string>, key: BucketKey)
    ensures SeatingTally(GroupsOf(groups, shops), key) == if key.shopId in shops then SeatingTally(groups, key) else 0
  {
    if groups != [] {
      var front, g := groups[..|groups| - 1], groups[|groups| - 1];
      OtherShopsDoNotCount(front, shops, key);
      assert groups == front + [g];
      var share := SeatingSnoc(front, g, key);
      if g.shopId in shops && !g.isCustom {
        var kept := SeatingSnoc(GroupsOf(front, shops), g, key);
      } else {
        assert GroupsOf(groups, shops) == GroupsOf(front, shops);
      }
    }
  }

  /** Both sides agree on every bucket of the shops that have a DINING unit, over all rows. */
  ghost predicate Agreed(resources: seq<DiningRow>, groups: seq<SeatingRow>) {
    forall key: BucketKey | key.shopId in Shops(DiningRows(resources)) ::
      SeatingTally(groups, key) == DiningTally(resources, key)
  }

  /** The entries the report is computed from. */
  function ShownSeating(resources: seq<DiningRow>, groups: seq<SeatingRow>): seq<Entry> {
    SeatingEntries(GroupsOf(groups, Shops(DiningRows(resources))))
  }

  function ShownDining(resources: seq<DiningRow>): seq<Entry> {
    DiningEntries(DiningRows(resources))
  }

  lemma ShownTallies(resources: seq<DiningRow>, groups: seq<SeatingRow>, key: BucketKey)
    ensures Tally(ShownDining(resources), key) == DiningTally(resources, key)
    ensures Tally(ShownSeating(resources, groups), key)
      == if key.shopId in Shops(DiningRows(resources)) then SeatingTally(groups, key) else 0
    ensures key.shopId !in Shops(DiningRows(resources)) ==> DiningTally(resources, key) == 0
  {
    OtherResourcesDoNotCount(resources, key);
    OtherShopsDoNotCount(groups, Shops(DiningRows(resources)), key);
  }

  lemma ReportedAgreement(resources: seq<DiningRow>, groups: seq<SeatingRow>)
    ensures SameTallies(ShownSeating(resources, groups), ShownDining(resources)) <==> Agreed(resources, groups)
  {
    if SameTallies(ShownSeating(resources, groups), ShownDining(resources)) {
      forall key: BucketKey | key.shopId in Shops(DiningRows(resources))
        ensures SeatingTally(groups, key) == DiningTally(resources, key)
      {
        ShownTallies(resources, groups, key);
        assert Tally(ShownSeating(resources, groups), key) == Tally(ShownDining(resources), key);
      }
    }
    if Agreed(resources, groups) {
      forall key: BucketKey
        ensures Tally(ShownSeating(resources, groups), key) == Tally(ShownDining(resources), key)
      {
        ShownTallies(resources, groups, key);
      }
    }
  }

  function InShops(buckets: seq<Bucket>, shops: set<string>): seq<Bucket> {
    if buckets == [] then []
    else
      var b := buckets[|buckets| - 1];
      InShops(buckets[..|buckets| - 1], shops) + (if b.key.shopId in shops then [b] else [])
  }

  lemma {:induction false} AllInShops(buckets: seq<Bucket>, shops: set<string>)
    requires forall b | b in buckets :: b.key.shopId in shops
    ensures InShops(buckets, shops) == buckets
  {
    if buckets != [] {
      var front, b := buckets[..|buckets| - 1], buckets[|buckets| - 1];
      assert buckets == front + [b];
      AllInShops(front, shops);
    }
  }

  /** The rows were already chosen by shop, so no bucket is of another shop. */
  lemma BucketsInShops(buckets: seq<Bucket>, resources: seq<DiningRow>, groups: seq<SeatingRow>)
    requires Merged(buckets, ShownSeating(resources, groups), ShownDining(resources))
    ensures InShops(buckets, Shops(DiningRows(resources))) == buckets
  {
    var shops := Shops(DiningRows(resources));
    forall b | b in buckets
      ensures b.key.shopId in shops
    {
      assert Listed(buckets, b.key);
      ShownTallies(resources, groups, b.key);
    }
    AllInShops(buckets, shops);
  }

  /** A drift row holds the totals of all rows of its key. */
  ghost predicate IsExact(r: DriftRow, resources: seq<DiningRow>, groups: seq<SeatingRow>) {
    r.bucket.seating == SeatingTally(groups, r.bucket.key) && r.bucket.dining == DiningTally(resources, r.bucket.key)
    && r.delta == r.bucket.seating - r.bucket.dining != 0
  }

  lemma DriftRowIsExact(buckets: seq<Bucket>, resources: seq<DiningRow>, groups: seq<SeatingRow>, r: DriftRow)
    requires Merged(buckets, ShownSeating(resources, groups), ShownDining(resources))
    requires r in DriftRows(buckets)
    ensures IsExact(r, resources, groups)
  {
    DriftRowsAre(buckets, r);
    ShownTallies(resources, groups, r.bucket.key);
  }

  lemma {:induction false} DriftCount(buckets: seq<Bucket>)
    ensures |DriftRows(buckets)| <= |buckets|
  {
    if buckets != [] {
      DriftCount(buckets[..|buckets| - 1]);
    }
  }

  /** The keys that some entry counts. */
  function CountedKeys(entries: seq<Entry>): set<BucketKey> {
    set e | e in entries && e.Counted? && e.add > 0 :: e.key
  }

  lemma {:induction false} CountedKeysMeans(entries: seq<Entry>, key: BucketKey)
    ensures key in CountedKeys(entries) <==> Tally(entries, key) > 0
  {
    if entries != [] {
      var front, e := entries[..|entries| - 1], entries[|entries| - 1];
      CountedKeysMeans(front, key);
      assert entries == front + [e];
      if key in CountedKeys(front) {
        var f :| f in front && f.Counted? && f.add > 0 && f.key == key;
        assert f in entries;
      }
      assert e in entries;
    }
  }

  function KeysOf(buckets: seq<Bucket>): set<BucketKey> {
    set b | b in buckets :: b.key
  }

  lemma {:induction false} KeysOfCount(buckets: seq<Bucket>)
    requires DistinctKeys(buckets)
    ensures |KeysOf(buckets)| == |buckets|
  {
    if buckets == [] {
      assert KeysOf(buckets) == {};
    } else {
      var front, last := buckets[..|buckets| - 1], buckets[|buckets| - 1];
      KeysOfCount(front);
      assert buckets == front + [last];
      assert KeysOf(buckets) == KeysOf(front) + {last.key};
    }
  }

  /** There are as many buckets as keys that either side counts. */
  lemma MergedCount(buckets: seq<Bucket>, seating: seq<Entry>, dining: seq<Entry>)
    requires Merged(buckets, seating, dining)
    ensures |buckets| == |CountedKeys(seating) + CountedKeys(dining)|
  {
    KeysOfCount(buckets);
    forall key ensures key in KeysOf(buckets) <==> key in CountedKeys(seating) + CountedKeys(dining) {
      CountedKeysMeans(seating, key);
      CountedKeysMeans(dining, key);
      assert Listed(buckets, key) <==> key in KeysOf(buckets);
    }
    assert KeysOf(buckets) == CountedKeys(seating) + CountedKeys(dining);
  }

  lemma {:induction false} DriftRowsOrdered(buckets: seq<Bucket>, leq: (Bucket, Bucket) -> bool)
    requires Ordered(buckets, leq)
    ensures RowsOrdered(DriftRows(buckets), leq)
  {
    if buckets != [] {
      var front, b := buckets[..|buckets| - 1], buckets[|buckets| - 1];
      DriftRowsOrdered(front, leq);
      var rows := DriftRows(front);
      forall i | 0 <= i < |rows| ensures leq(rows[i].bucket, b) {
        DriftRowsAre(front, rows[i]);
        var n :| 0 <= n < |front| && front[n] == rows[i].bucket;
        assert buckets[n] == front[n];
      }
    }
  }

  ghost predicate RowsOrdered(rows: seq<DriftRow>, leq: (Bucket, Bucket) -> bool) {
    forall i, j | 0 <= i < j < |rows| :: leq(rows[i].bucket, rows[j].bucket)
  }

  function ReportOf(shops: nat, buckets: seq<Bucket>): (report: Report)
    ensures report.drifts == DriftRows(buckets)
    ensures report.matchedBuckets + report.driftedBuckets == report.bucketsCompared == |buckets|
    ensures report.driftedBuckets == |report.drifts| && report.shopsCompared == shops
    ensures report.samples == report.drifts[..Min(40, |report.drifts|)]
  {
    var drifts := DriftRows(buckets);
    DriftCount(buckets);
    Report(shops, |buckets|, |buckets| - |drifts|, |drifts|, drifts,
      if |drifts| > SAMPLE_CAP then drifts[..SAMPLE_CAP] else drifts)
  }

  lemma ReportFacts(buckets: seq<Bucket>, resources: seq<DiningRow>, groups: seq<SeatingRow>)
    requires Merged(buckets, ShownSeating(resources, groups), ShownDining(resources))
    ensures DriftRows(buckets) == [] <==> Agreed(resources, groups)
    ensures forall r | r in DriftRows(buckets) :: IsExact(r, resources, groups)
    ensures SumDeltas(DriftRows(buckets))
      == GrandTotal(ShownSeating(resources, groups)) - GrandTotal(ShownDining(resources))
    ensures InShops(buckets, Shops(DiningRows(resources))) == buckets
  {
    NoDriftIffAgreed(buckets, ShownSeating(resources, groups), ShownDining(resources));
    ReportedAgreement(resources, groups);
    DeltasAddUp(buckets, ShownSeating(resources, groups), ShownDining(resources));
    BucketsInShops(buckets, resources, groups);
    forall r | r in DriftRows(buckets)
      ensures IsExact(r, resources, groups)
    {
      DriftRowIsExact(buckets, resources, groups, r);
    }
  }

  /** Every bucket of a shop with a DINING unit on which the sides differ has its row, and only one. */
  ghost predicate Complete(rows: seq<DriftRow>, resources: seq<DiningRow>, groups: seq<SeatingRow>) {
    (forall i, j | 0 <= i < j < |rows| :: rows[i].bucket.key != rows[j].bucket.key)
    && forall key: BucketKey | key.shopId in Shops(DiningRows(resources))
         && SeatingTally(groups, key) != DiningTally(resources, key) ::
      exists r | r in rows :: r.bucket.key == key
  }

  lemma {:induction false} DriftKeysDistinct(buckets: seq<Bucket>)
    requires DistinctKeys(buckets)
    ensures forall i, j | 0 <= i < j < |DriftRows(buckets)| ::
      DriftRows(buckets)[i].bucket.key != DriftRows(buckets)[j].bucket.key
  {
    if buckets != [] {
      var front, b := buckets[..|buckets| - 1], buckets[|buckets| - 1];
      DriftKeysDistinct(front);
      forall r | r in DriftRows(front) ensures r.bucket.key != b.key {
        DriftRowsAre(front, r);
      }
    }
  }

  lemma ReportComplete(buckets: seq<Bucket>, resources: seq<DiningRow>, groups: seq<SeatingRow>)
    requires Merged(buckets, ShownSeating(resources, groups), ShownDining(resources))
    ensures Complete(DriftRows(buckets), resources, groups)
  {
    DriftKeysDistinct(buckets);
    forall key: BucketKey | key.shopId in Shops(DiningRows(resources))
        && SeatingTally(groups, key) != DiningTally(resources, key)
      ensures exists r | r in DriftRows(buckets) :: r.bucket.key == key
    {
      ShownTallies(resources, groups, key);
      assert Listed(buckets, key);
      var b :| b in buckets && b.key == key;
      DriftRowsAre(buckets, DriftRow(b, Delta(b)));
    }
  }

  method DetectResourceDiningDrift(resources: seq<DiningRow>, groups: seq<SeatingRow>,
                                   compare: (string, string) -> int)
    returns (report: Report)
    requires Compares(compare)
    ensures report.drifts == [] <==> Agreed(resources, groups)
    ensures forall r | r in report.drifts :: IsExact(r, resources, groups)
    ensures Complete(report.drifts, resources, groups)
    ensures SumDeltas(report.drifts)
      == GrandTotal(ShownSeating(resources, groups)) - GrandTotal(ShownDining(resources))
    ensures report.matchedBuckets + report.driftedBuckets == report.bucketsCompared
    ensures report.driftedBuckets == |report.drifts| && RowsOrdered(report.drifts, ByKeyText(compare))
    ensures report.samples == report.drifts[..Min(40, |report.drifts|)]
    ensures report.shopsCompared == |Shops(DiningRows(resources))|
    ensures report.bucketsCompared
         == |CountedKeys(ShownSeating(resources, groups)) + CountedKeys(ShownDining(resources))|
  {
    var rows := DiningRows(resources);
    var shopIds := Shops(rows);
    var shown := GroupsOf(groups, shopIds);
    var seating := SeatingTotalsFromRows(shown);
    var dining := DiningCountsFromRows(rows);
    var merged := MergeInventoryBuckets(seating, dining, compare);
    ghost var ids :| OnePerId(merged, ids, seating, dining) && AllIds(ids, seating, dining);
    MergeIsMerged(merged, ids, seating, dining, ShownSeating(resources, groups), ShownDining(resources));
    ReportFacts(merged, resources, groups);
    ReportComplete(merged, resources, groups);
    MergedCount(merged, ShownSeating(resources, groups), ShownDining(resources));
    DriftRowsOrdered(merged, ByKeyText(compare));
    var buckets := InShops(merged, shopIds);
    report := ReportOf(|shopIds|, buckets);
  }
}
