/** continuity.js, applySnapshot: which snapshots are taken in, and what the cache holds then. */
module SnapshotRules {
  import opened Collections
  import opened Options
  import opened ContinuityData
  import opened Continuity

  function Ids(rows: seq<Payload>): (ids: seq<string>)
    ensures |ids| == |rows|
  {
    seq(|rows|, i requires 0 <= i < |rows| => Required(rows[i], Id))
  }

  /** No row lacks an id, and no two share one. */
  ghost predicate SoundIds(ids: seq<string>) {
    "" !in ids && Distinct(ids)
  }

  predicate IsRow(row: CacheRow, payload: Payload) {
    row.payload == payload
    && row.version == if Version in payload && payload[Version].Num? then Some(payload[Version].n) else None
  }

  /** The cache has exactly these rows under this kind, by their ids and with their versions. */
  ghost predicate HoldsRows(cache: Cache, kind: Kind, ids: seq<string>, rows: seq<Payload>) {
    |ids| == |rows|
    && (forall i | 0 <= i < |ids| :: (kind, ids[i]) in cache && IsRow(cache[(kind, ids[i])], rows[i]))
    && forall id | (kind, id) in cache :: id in ids
  }

  ghost predicate SameKind(cache: Cache, cache': Cache, kind: Kind) {
    forall id ::
      ((kind, id) in cache' <==> (kind, id) in cache)
      && ((kind, id) in cache ==> cache'[(kind, id)] == cache[(kind, id)])
  }

  /** Row i is the first at fault: its id is missing, or taken by an earlier row. */
  ghost predicate FaultAt(ids: seq<string>, i: nat, fault: Fault) {
    i < |ids| && SoundIds(ids[..i])
    && if ids[i] == "" then fault == MissingField else fault == UniqueViolation && ids[i] in ids[..i]
  }

  /** The first row at fault is so in this way. */
  ghost predicate FaultIs(ids: seq<string>, fault: Fault) {
    exists i: nat :: FaultAt(ids, i, fault)
  }

  ghost predicate NoneOf(cache: Cache, kind: Kind) {
    forall id :: (kind, id) !in cache
  }

  lemma {:induction false} InsertsExactly(cache: Cache, kind: Kind, rows: seq<Payload>)
    requires NoneOf(cache, kind)
    ensures match InsertRows(cache, kind, rows)
            case Loaded(cache') =>
              SoundIds(Ids(rows)) && HoldsRows(cache', kind, Ids(rows), rows)
              && forall k | k != kind :: SameKind(cache, cache', k)
            case Broken(fault) => FaultIs(Ids(rows), fault)
  {
    if rows != [] {
      var front, last := rows[..|rows| - 1], rows[|rows| - 1];
      assert rows == front + [last];
      InsertsExactly(cache, kind, front);
      IdsNext(front, last);
      match InsertRows(cache, kind, front) {
        case Broken(fault) =>
          assert InsertRows(cache, kind, rows) == Broken(fault);
          EarlierFault(Ids(front), Ids(rows), fault);
        case Loaded(before) =>
          assert InsertRows(cache, kind, rows) == InsertRow(before, kind, last);
          RowInserted(before, kind, Ids(front), front, Required(last, Id), last, Ids(rows), rows);
          OthersStay(cache, before, InsertRow(before, kind, last), kind);
      }
    }
  }

  lemma IdsNext(front: seq<Payload>, last: Payload)
    ensures Ids(front + [last]) == Ids(front) + [Required(last, Id)]
  {
    var ids: seq<string> := Ids(front + [last]);
    forall i | 0 <= i < |front| ensures ids[i] == Ids(front)[i] {
      assert (front + [last])[i] == front[i];
    }
  }

  lemma EarlierFault(front: seq<string>, ids: seq<string>, fault: Fault)
    requires front <= ids && FaultIs(front, fault)
    ensures FaultIs(ids, fault)
  {
    var i: nat :| FaultAt(front, i, fault);
    assert ids[..i] == front[..i];
    assert FaultAt(ids, i, fault);
  }

  lemma OthersStay(cache: Cache, before: Cache, after: Loaded, kind: Kind)
    requires forall k | k != kind :: SameKind(cache, before, k)
    requires after.Loaded? ==> forall k | k != kind :: SameKind(before, after.cache, k)
    ensures after.Loaded? ==> forall k | k != kind :: SameKind(cache, after.cache, k)
  {
    if after.Loaded? {
      forall k | k != kind ensures SameKind(cache, after.cache, k) {
        assert SameKind(cache, before, k) && SameKind(before, after.cache, k);
      }
    }
  }

  lemma RowInserted(
    before: Cache, kind: Kind, front: seq<string>, rows: seq<Payload>, id: string, last: Payload, ids: seq<string>,
    rows': seq<Payload>)
    requires HoldsRows(before, kind, front, rows) && SoundIds(front) && id == Required(last, Id)
    requires ids == front + [id] && rows' == rows + [last]
    ensures match InsertRow(before, kind, last)
            case Loaded(cache') =>
              SoundIds(ids) && HoldsRows(cache', kind, ids, rows')
              && forall k | k != kind :: SameKind(before, cache', k)
            case Broken(fault) => FaultIs(ids, fault)
  {
    assert ids[..|front|] == front;
    assert (kind, id) in before <==> id in front;
    match InsertRow(before, kind, last) {
      case Loaded(_) => RowAdded(before, kind, front, rows, id, last);
      case Broken(fault) => assert FaultAt(ids, |front|, fault);
    }
  }

  lemma RowAdded(before: Cache, kind: Kind, front: seq<string>, rows: seq<Payload>, id: string, last: Payload)
    requires HoldsRows(before, kind, front, rows) && SoundIds(front) && id != "" && (kind, id) !in before
    ensures var cache' := before[(kind, id) := SnapshotRow(last)];
            SoundIds(front + [id]) && HoldsRows(cache', kind, front + [id], rows + [last])
            && forall k | k != kind :: SameKind(before, cache', k)
  {
    var cache' := before[(kind, id) := SnapshotRow(last)];
    assert id !in front;
    assert IsRow(SnapshotRow(last), last);
    forall i | 0 <= i < |front| + 1
      ensures (kind, (front + [id])[i]) in cache' && IsRow(cache'[(kind, (front + [id])[i])], (rows + [last])[i])
    {
      assert i < |front| ==> front[i] in front && IsRow(before[(kind, front[i])], rows[i]);
    }
  }

  ghost predicate KindHolds(cache: Cache, s: Snapshot, kind: Kind) {
    SoundIds(Ids(RowsOf(s, kind))) && HoldsRows(cache, kind, Ids(RowsOf(s, kind)), RowsOf(s, kind))
  }

  /** The kinds of a list, one after the other. */
  ghost predicate LoadedAs(cache: Cache, s: Snapshot, kinds: seq<Kind>, cache': Cache) {
    (forall n | 0 <= n < |kinds| :: KindHolds(cache', s, kinds[n]))
    && forall k | k !in kinds :: SameKind(cache, cache', k)
  }

  ghost predicate BrokenAt(s: Snapshot, kinds: seq<Kind>, n: nat, fault: Fault) {
    n < |kinds| && (forall m | 0 <= m < n :: SoundIds(Ids(RowsOf(s, kinds[m]))))
    && FaultIs(Ids(RowsOf(s, kinds[n])), fault)
  }

  ghost predicate BrokenBy(s: Snapshot, kinds: seq<Kind>, fault: Fault) {
    exists n: nat :: BrokenAt(s, kinds, n, fault)
  }

  lemma {:induction false} LoadsExactly(cache: Cache, s: Snapshot, kinds: seq<Kind>)
    requires Distinct(kinds)
    ensures match LoadKinds(cache, s, kinds)
            case Loaded(cache') => LoadedAs(cache, s, kinds, cache')
            case Broken(fault) => BrokenBy(s, kinds, fault)
  {
    if kinds != [] {
      var front, kind := kinds[..|kinds| - 1], kinds[|kinds| - 1];
      assert kinds == front + [kind];
      LoadsExactly(cache, s, front);
      match LoadKinds(cache, s, front) {
        case Broken(fault) =>
          var n: nat :| BrokenAt(s, front, n, fault);
          assert BrokenAt(s, kinds, n, fault);
        case Loaded(before) => KindLoaded(cache, s, front, kind, kinds, before);
      }
    }
  }

  lemma KindLoaded(cache: Cache, s: Snapshot, front: seq<Kind>, kind: Kind, kinds: seq<Kind>, before: Cache)
    requires kinds == front + [kind] && kind !in front && LoadedAs(cache, s, front, before)
    ensures match InsertRows(ClearKind(before, kind), kind, RowsOf(s, kind))
            case Loaded(cache') => LoadedAs(cache, s, kinds, cache')
            case Broken(fault) => BrokenBy(s, kinds, fault)
  {
    var cleared, rows := ClearKind(before, kind), RowsOf(s, kind);
    InsertsExactly(cleared, kind, rows);
    match InsertRows(cleared, kind, rows) {
      case Broken(fault) =>
        assert kinds[|front|] == kind;
        assert BrokenAt(s, kinds, |front|, fault);
      case Loaded(cache') =>
        forall n | 0 <= n < |kinds|
          ensures KindHolds(cache', s, kinds[n])
        {
          if n < |front| {
            assert KindHolds(before, s, front[n]) && SameKind(before, cleared, front[n]);
            StillHolds(before, cleared, cache', front[n], Ids(RowsOf(s, front[n])), RowsOf(s, front[n]));
          }
        }
        forall k | k !in kinds ensures SameKind(cache, cache', k) {
          assert SameKind(cache, before, k) && SameKind(before, cleared, k) && SameKind(cleared, cache', k);
        }
    }
  }

  lemma StillHolds(
    before: Cache, cleared: Cache, cache': Cache, kind: Kind, ids: seq<string>, rows: seq<Payload>)
    requires SameKind(before, cleared, kind) && SameKind(cleared, cache', kind) && HoldsRows(before, kind, ids, rows)
    ensures HoldsRows(cache', kind, ids, rows)
  {
  }

  lemma KindsDistinct()
    ensures Distinct(SNAPSHOT_KINDS)
  {
    assert SNAPSHOT_KINDS == [Venue, Device, Operator, Resource, Rate, Catalog, Check, Session, Kds];
  }

  /** A snapshot without a venue, or of another venue, is refused. Any other one records its venue; then each of nine
      kinds holds exactly the rows of the snapshot, and orders stay, or else nothing is cached and the fault is that of
      the first row at fault. Commands, ledger and conflicts are not touched. */
  lemma AppliesExactly(t: Tables, s: Snapshot)
    ensures var (t', fault) := ApplySnapshot(t, s);
            t'.commands == t.commands && t'.ledger == t.ledger && t'.conflicts == t.conflicts
            && if s.venueId == "" then t' == t && fault == Some(MissingField)
               else if t.shopId.Some? && t.shopId.value != "" && t.shopId.value != s.venueId then
                 t' == t && fault == Some(TenantConflict)
               else
                 var kinds := [Venue, Device, Operator, Resource, Rate, Catalog, Check, Session, Kds];
                 t'.shopId == Some(s.venueId)
                 && if fault.None? then LoadedAs(t.cache, s, kinds, t'.cache)
                    else t'.cache == t.cache && BrokenBy(s, kinds, fault.value)
  {
    hide LoadKinds, LoadedAs, BrokenBy;
    KindsDistinct();
    LoadsExactly(t.cache, s, SNAPSHOT_KINDS);
  }

  /** A crash before the transaction of the cache leaves the venue of the whole load, and the cache as it was. */
  lemma CutAppliesExactly(t: Tables, s: Snapshot)
    ensures CutSnapshot(t, s) == ApplySnapshot(t, s).0.(cache := t.cache)
  {
    hide LoadKinds;
  }
}
