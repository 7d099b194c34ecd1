/** captcha-escalation.util.ts: the pruned, capped maps against the full history of throttled creates. */
module CaptchaEscalation {
  import opened Collections
  import opened Text

  datatype Kind = Booking | Event | Contact | Review | ChatOpen

  /** The two maps; `order` lists the keys of `surfaces` by insertion, as a JavaScript Map does. */
  datatype Store = Store(surfaces: map<string, map<Kind, int>>, all: map<string, int>, order: seq<string>)

  const MAX_TRACKED_IPS: nat := 20_000

  // ---------- The operations on values ----------

  function LiveOnly(kinds: map<Kind, int>, now: int): map<Kind, int> {
    map k | k in kinds && kinds[k] > now :: kinds[k]
  }

  function Without(order: seq<string>, ip: string): seq<string> {
    if order == [] then [] else if order[0] == ip then Without(order[1..], ip) else [order[0]] + Without(order[1..], ip)
  }

  function Pruned(st: Store, ip: string, now: int): Store {
    var all := if ip in st.all && st.all[ip] <= now then st.all - {ip} else st.all;
    if ip !in st.surfaces then st.(all := all)
    else
      var live := LiveOnly(st.surfaces[ip], now);
      if live == map[] then Store(st.surfaces - {ip}, all, Without(st.order, ip))
      else Store(st.surfaces[ip := live], all, st.order)
  }

  function PruneEach(st: Store, ips: seq<string>, now: int): Store
    decreases |ips|
  {
    if ips == [] then st else PruneEach(Pruned(st, ips[0], now), ips[1..], now)
  }

  function AllPruned(st: Store, now: int): Store {
    var pruned := PruneEach(st, st.order, now);
    pruned.(all := map ip | ip in pruned.all && pruned.all[ip] > now :: pruned.all[ip])
  }

  function Names(ips: seq<string>): set<string> {
    set ip | ip in ips
  }

  /** How many of the oldest addresses the cap drops, after pruning. */
  function Overflow(st: Store): nat {
    if |st.surfaces| > MAX_TRACKED_IPS then |st.surfaces| - MAX_TRACKED_IPS else 0
  }

  function Dropped(st: Store, n: nat): Store
    requires n <= |st.order|
  {
    var gone := Names(st.order[..n]);
    Store(st.surfaces - gone, st.all - gone, st.order[n..])
  }

  /** The addresses the cap drops: the oldest, as many as there are too many. */
  function Oldest(st: Store): set<string> {
    Names(st.order[..Min(Overflow(st), |st.order|)])
  }

  function DropFirst(st: Store): Store
    requires st.order != []
  {
    Store(st.surfaces - {st.order[0]}, st.all - {st.order[0]}, Without(st.order, st.order[0]))
  }

  function DropFirsts(st: Store, n: nat): Store
    decreases n
  {
    if n == 0 || st.order == [] then st else DropFirsts(DropFirst(st), n - 1)
  }

  function DropOldest(st: Store): Store {
    DropFirsts(st, Overflow(st))
  }

  function OverCap(st: Store): bool {
    |st.surfaces| + |st.all| > MAX_TRACKED_IPS
  }

  function Capped(st: Store, now: int): Store {
    if OverCap(st) then DropOldest(AllPruned(st, now)) else st
  }

  function Evicted(st: Store, now: int): set<string> {
    if OverCap(st) then Oldest(AllPruned(st, now)) else {}
  }

  function Max(a: int, b: int): int {
    if a < b then b else a
  }

  function Until(kinds: map<Kind, int>, kind: Kind): int {
    if kind in kinds then kinds[kind] else 0
  }

  function ActiveKinds(kinds: map<Kind, int>, now: int): set<Kind> {
    set k | k in kinds && kinds[k] > now
  }

  /** Entering one note, between the pruning of its address and the cap. */
  function Enter(st: Store, ip: string, kind: Kind, now: int, until: int): Store {
    var known := if ip in st.surfaces then st.surfaces[ip] else map[];
    var kinds := known[kind := Max(Until(known, kind), until)];
    var all := if |ActiveKinds(kinds, now)| >= 2
      then st.all[ip := Max(if ip in st.all then st.all[ip] else 0, until)] else st.all;
    Store(st.surfaces[ip := kinds], all, if ip in st.surfaces then st.order else st.order + [ip])
  }

  function Escalated(st: Store, ip: string, kind: Kind, now: int): bool {
    (ip in st.all && st.all[ip] > now) || (ip in st.surfaces && kind in st.surfaces[ip] && st.surfaces[ip][kind] > now)
  }

  function Entered(st: Store, ip: string, kind: Kind, now: int, until: int): Store {
    Enter(Pruned(st, ip, now), ip, kind, now, until)
  }

  /** The operations for an address already trimmed; a blank one is ignored. */
  function Noted(st: Store, ip: string, kind: Kind, now: int, until: int): Store {
    if ip == "" then st else Capped(Entered(st, ip, kind, now, until), now)
  }

  function Asked(st: Store, ip: string, now: int): Store {
    if ip == "" then st else Pruned(st, ip, now)
  }

  function Answer(st: Store, ip: string, kind: Kind, now: int): bool {
    ip != "" && Escalated(Pruned(st, ip, now), ip, kind, now)
  }

  predicate SameEntries(st: Store, st': Store, ip: string) {
    (ip in st'.all <==> ip in st.all) && (ip in st.all ==> st'.all[ip] == st.all[ip])
    && (ip in st'.surfaces <==> ip in st.surfaces) && (ip in st.surfaces ==> st'.surfaces[ip] == st.surfaces[ip])
  }

  /** What is kept of the entries of one address: those that have not expired. */
  ghost predicate KeepsLive(st: Store, st': Store, ip: string, now: int) {
    (ip in st'.all <==> ip in st.all && st.all[ip] > now) && (ip in st'.all ==> st'.all[ip] == st.all[ip])
    && (ip in st'.surfaces <==> ip in st.surfaces && exists k | k in st.surfaces[ip] :: st.surfaces[ip][k] > now)
    && (ip in st'.surfaces ==>
          forall k ::
            (k in st'.surfaces[ip] <==> k in st.surfaces[ip] && st.surfaces[ip][k] > now)
            && (k in st'.surfaces[ip] ==> st'.surfaces[ip][k] == st.surfaces[ip][k]))
  }

  /** Asking about an address forgets what has expired of it, and nothing of any other one. */
  lemma AskedExactly(st: Store, ip: string, now: int)
    ensures ip != "" ==> KeepsLive(st, Asked(st, ip, now), ip, now)
    ensures forall other | ip == "" || other != ip :: SameEntries(st, Asked(st, ip, now), other)
  {
    if ip in st.surfaces {
      var live := LiveOnly(st.surfaces[ip], now);
      if k :| k in st.surfaces[ip] && st.surfaces[ip][k] > now {
        assert k in live;
      } else {
        assert live == map[];
      }
    }
  }

  // ---------- What the maps say, and the history they stand for ----------

  datatype Note = Note(ip: string, kind: Kind, now: int, until: int)

  predicate KindLive(st: Store, ip: string, kind: Kind, at: int) {
    ip in st.surfaces && kind in st.surfaces[ip] && st.surfaces[ip][kind] > at
  }

  predicate AllLive(st: Store, ip: string, at: int) {
    ip in st.all && st.all[ip] > at
  }

  predicate NoteLive(notes: seq<Note>, ip: string, kind: Kind, at: int) {
    notes != [] &&
    var n := notes[|notes| - 1];
    NoteLive(notes[..|notes| - 1], ip, kind, at) || (n.ip == ip && n.kind == kind && n.until > at)
  }

  ghost predicate OtherLive(notes: seq<Note>, ip: string, kind: Kind, at: int) {
    exists other: Kind :: other != kind && NoteLive(notes, ip, other, at)
  }

  /** Some note came while one of another kind was live, and is live itself. */
  ghost predicate PairLive(notes: seq<Note>, ip: string, at: int) {
    notes != [] &&
    var n := notes[|notes| - 1];
    PairLive(notes[..|notes| - 1], ip, at)
    || (n.ip == ip && n.until > at && OtherLive(notes[..|notes| - 1], ip, n.kind, n.now))
  }

  /** From `clock` on, the maps and the history give the same answers. */
  ghost predicate Agrees(st: Store, notes: seq<Note>, clock: int) {
    (forall ip, kind, at | at >= clock :: KindLive(st, ip, kind, at) == NoteLive(notes, ip, kind, at))
    && (forall ip, at | at >= clock :: AllLive(st, ip, at) == PairLive(notes, ip, at))
  }

  ghost predicate Ordered(st: Store) {
    Names(st.order) == st.surfaces.Keys
    && Distinct(st.order)
  }

  /** Every address-wide entry is outlived by one of the address's own surfaces. */
  ghost predicate Covered(st: Store) {
    forall ip | ip in st.all :: ip in st.surfaces && exists k ::
          k in st.surfaces[ip] && st.surfaces[ip][k] >= st.all[ip]
  }

  ghost predicate Inv(st: Store, notes: seq<Note>, clock: int) {
    match st
    case Store(_, _, _) => Ordered(st) && Covered(st) && Agrees(st, notes, clock) && clock >= 0
  }

  // ---------- Pruning ----------

  lemma {:induction false} WithoutKeeps(order: seq<string>, ip: string)
    ensures Names(Without(order, ip)) == Names(order) - {ip}
    ensures Distinct(order) ==> Distinct(Without(order, ip))
  {
    if order != [] {
      var rest := order[1..];
      WithoutKeeps(rest, ip);
      assert Names(order) == {order[0]} + Names(rest);
      if order[0] != ip {
        assert Names(Without(order, ip)) == {order[0]} + Names(Without(rest, ip));
        if Distinct(order) {
          assert order[0] !in rest;
          assert order[0] !in Names(Without(rest, ip));
        }
      }
    }
  }

  lemma PruneIpAnswers(st: Store, ip: string, now: int, other: string, kind: Kind, at: int)
    requires at >= now
    ensures KindLive(Pruned(st, ip, now), other, kind, at) == KindLive(st, other, kind, at)
    ensures AllLive(Pruned(st, ip, now), other, at) == AllLive(st, other, at)
  {
    if KindLive(st, ip, kind, at) {
      assert kind in LiveOnly(st.surfaces[ip], now);
    }
  }

  lemma PruneIpCovers(st: Store, ip: string, now: int)
    requires Covered(st)
    ensures Covered(Pruned(st, ip, now))
  {
    var next := Pruned(st, ip, now);
    forall other | other in next.all
      ensures other in next.surfaces
          && exists k :: k in next.surfaces[other] && next.surfaces[other][k] >= next.all[other]
    {
      var k :| k in st.surfaces[other] && st.surfaces[other][k] >= st.all[other];
      if other == ip {
        assert k in LiveOnly(st.surfaces[ip], now);
      }
      assert k in next.surfaces[other];
    }
  }

  lemma PruneIpKeeps(st: Store, ip: string, now: int, notes: seq<Note>, clock: int)
    requires Inv(st, notes, clock) && now >= clock
    ensures Inv(Pruned(st, ip, now), notes, now)
  {
    var next := Pruned(st, ip, now);
    WithoutKeeps(st.order, ip);
    PruneIpCovers(st, ip, now);
    forall other, kind, at | at >= now
      ensures KindLive(next, other, kind, at) == NoteLive(notes, other, kind, at)
    {
      PruneIpAnswers(st, ip, now, other, kind, at);
    }
    forall other, at | at >= now
      ensures AllLive(next, other, at) == PairLive(notes, other, at)
    {
      PruneIpAnswers(st, ip, now, other, Booking, at);
    }
  }

  lemma {:induction false} PruneEachKeeps(st: Store, ips: seq<string>, now: int, notes: seq<Note>)
    requires Inv(st, notes, now)
    ensures Inv(PruneEach(st, ips, now), notes, now)
    decreases |ips|
  {
    if ips != [] {
      PruneIpKeeps(st, ips[0], now, notes, now);
      PruneEachKeeps(Pruned(st, ips[0], now), ips[1..], now, notes);
    }
  }

  lemma PruneAllKeeps(st: Store, now: int, notes: seq<Note>)
    requires Inv(st, notes, now)
    ensures Inv(AllPruned(st, now), notes, now)
  {
    PruneEachKeeps(st, st.order, now, notes);
    var pruned, next := PruneEach(st, st.order, now), AllPruned(st, now);
    assert forall ip | ip in next.all :: ip in pruned.all;
    forall ip, kind, at | at >= now
      ensures KindLive(next, ip, kind, at) == NoteLive(notes, ip, kind, at)
    {
      assert KindLive(pruned, ip, kind, at) == NoteLive(notes, ip, kind, at);
    }
    forall ip, at | at >= now
      ensures AllLive(next, ip, at) == PairLive(notes, ip, at)
    {
      assert AllLive(pruned, ip, at) == PairLive(notes, ip, at);
    }
  }

  // ---------- Entering a note ----------

  lemma TwoKinds(kinds: map<Kind, int>, kind: Kind, now: int)
    requires kind in kinds && kinds[kind] > now
    ensures |ActiveKinds(kinds, now)| >= 2 <==>
              exists other: Kind :: other != kind && other in kinds && kinds[other] > now
  {
    var live := ActiveKinds(kinds, now);
    assert |live - {kind}| == |live| - 1;
    if |live| >= 2 {
      var other :| other in live - {kind};
    }
    if other: Kind :| other != kind && other in kinds && kinds[other] > now {
      assert other in live - {kind};
    }
  }

  lemma EnterKinds(st: Store, ip: string, kind: Kind, now: int, until: int, other: string, k: Kind, at: int)
    requires at >= now >= 0
    ensures KindLive(Enter(st, ip, kind, now, until), other, k, at) ==
      (KindLive(st, other, k, at) || (other == ip && k == kind && until > at))
  {
  }

  lemma EnterAll(st: Store, ip: string, kind: Kind, now: int, until: int, other: string, at: int)
    requires at >= now >= 0
    ensures AllLive(Enter(st, ip, kind, now, until), other, at) ==
      (AllLive(st, other, at)
      || (other == ip && until > at && exists k: Kind :: k != kind && KindLive(st, ip, k, now)))
  {
    if other == ip && until > at {
      var known := if ip in st.surfaces then st.surfaces[ip] else map[];
      var kinds := known[kind := Max(Until(known, kind), until)];
      TwoKinds(kinds, kind, now);
      if k: Kind :| k != kind && KindLive(st, ip, k, now) {
        assert k in kinds && kinds[k] > now;
      }
      if k: Kind :| k != kind && k in kinds && kinds[k] > now {
        assert KindLive(st, ip, k, now);
      }
    }
  }

  lemma EnterCovers(st: Store, ip: string, kind: Kind, now: int, until: int)
    requires Covered(st) && now >= 0
    ensures Covered(Enter(st, ip, kind, now, until))
  {
    var next := Enter(st, ip, kind, now, until);
    forall other | other in next.all
      ensures other in next.surfaces
          && exists k :: k in next.surfaces[other] && next.surfaces[other][k] >= next.all[other]
    {
      if other in st.all {
        var k :| k in st.surfaces[other] && st.surfaces[other][k] >= st.all[other];
        assert k in next.surfaces[other] && next.surfaces[other][k] >= st.surfaces[other][k];
        if other == ip {
          assert next.surfaces[ip][kind] >= until;
        }
      } else {
        assert kind in next.surfaces[other];
      }
    }
  }

  lemma EnterKeeps(st: Store, notes: seq<Note>, ip: string, kind: Kind, now: int, until: int)
    requires Inv(st, notes, now)
    ensures Inv(Enter(st, ip, kind, now, until), notes + [Note(ip, kind, now, until)], now)
  {
    var next, more := Enter(st, ip, kind, now, until), notes + [Note(ip, kind, now, until)];
    assert more[..|more| - 1] == notes;
    EnterCovers(st, ip, kind, now, until);
    forall other, k, at | at >= now
      ensures KindLive(next, other, k, at) == NoteLive(more, other, k, at)
    {
      EnterKinds(st, ip, kind, now, until, other, k, at);
      assert KindLive(st, other, k, at) == NoteLive(notes, other, k, at);
    }
    forall other, at | at >= now
      ensures AllLive(next, other, at) == PairLive(more, other, at)
    {
      EnterAll(st, ip, kind, now, until, other, at);
      assert AllLive(st, other, at) == PairLive(notes, other, at);
      assert forall k: Kind :: KindLive(st, ip, k, now) == NoteLive(notes, ip, k, now);
    }
  }

  // ---------- The cap ----------

  /** The history without the notes of dropped addresses. */
  function Forget(notes: seq<Note>, gone: set<string>): seq<Note> {
    if notes == [] then [] else
      var n := notes[|notes| - 1];
      Forget(notes[..|notes| - 1], gone) + (if n.ip in gone then [] else [n])
  }

  lemma {:induction false} ForgetNotes(notes: seq<Note>, gone: set<string>, ip: string, kind: Kind, at: int)
    ensures NoteLive(Forget(notes, gone), ip, kind, at) == (ip !in gone && NoteLive(notes, ip, kind, at))
  {
    if notes != [] {
      var front, n := notes[..|notes| - 1], notes[|notes| - 1];
      ForgetNotes(front, gone, ip, kind, at);
      assert (Forget(front, gone) + [n])[..|Forget(front, gone)|] == Forget(front, gone);
      assert n.ip in gone ==> Forget(notes, gone) == Forget(front, gone);
    }
  }

  lemma {:induction false} ForgetPairs(notes: seq<Note>, gone: set<string>, ip: string, at: int)
    ensures PairLive(Forget(notes, gone), ip, at) == (ip !in gone && PairLive(notes, ip, at))
  {
    if notes != [] {
      var front, n := notes[..|notes| - 1], notes[|notes| - 1];
      ForgetPairs(front, gone, ip, at);
      if n.ip in gone {
        assert Forget(notes, gone) == Forget(front, gone);
      } else {
        assert Forget(notes, gone)[..|Forget(front, gone)|] == Forget(front, gone);
        forall kind {
          ForgetNotes(front, gone, ip, kind, n.now);
        }
      }
    }
  }

  lemma {:induction false} ForgetNobody(notes: seq<Note>)
    ensures Forget(notes, {}) == notes
  {
    if notes != [] {
      ForgetNobody(notes[..|notes| - 1]);
    }
  }

  lemma NamesSplit(order: seq<string>, n: nat)
    requires n <= |order| && Distinct(order)
    ensures Names(order[n..]) == Names(order) - Names(order[..n])
  {
    forall ip
      ensures ip in Names(order[n..]) <==> ip in Names(order) - Names(order[..n])
    {
      if ip in order[n..] {
        var j :| n <= j < |order| && order[j] == ip;
        assert forall i | 0 <= i < n :: order[i] != order[j];
      }
    }
  }

  lemma {:induction false} WithoutFirst(order: seq<string>)
    requires order != [] && Distinct(order)
    ensures Without(order, order[0]) == order[1..]
  {
    WithoutAbsent(order[1..], order[0]);
  }

  lemma {:induction false} WithoutAbsent(order: seq<string>, ip: string)
    requires ip !in order
    ensures Without(order, ip) == order
  {
    if order != [] {
      WithoutAbsent(order[1..], ip);
    }
  }

  lemma RemovedTwice<V>(m: map<string, V>, gone: set<string>, ip: string)
    ensures (m - {ip}) - gone == m - ({ip} + gone)
  {
  }

  /** Dropping the first address n times drops the first n addresses. */
  lemma {:induction false} DropFirstsIs(st: Store, n: nat)
    requires Distinct(st.order) && n <= |st.order|
    ensures DropFirsts(st, n) == Dropped(st, n)
    decreases n
  {
    if n == 0 {
      assert Names(st.order[..0]) == {};
    } else {
      var next, ip := DropFirst(st), st.order[0];
      WithoutFirst(st.order);
      DropFirstsIs(next, n - 1);
      assert st.order[..n] == [ip] + next.order[..n - 1];
      assert Names(st.order[..n]) == {ip} + Names(next.order[..n - 1]);
      RemovedTwice(st.surfaces, Names(next.order[..n - 1]), ip);
      RemovedTwice(st.all, Names(next.order[..n - 1]), ip);
    }
  }

  lemma DropOldestIs(st: Store)
    requires Ordered(st)
    ensures DropOldest(st) == Dropped(st, Min(Overflow(st), |st.order|)) && Overflow(st) <= |st.order|
  {
    OrderedCount(st);
    DropFirstsIs(st, Overflow(st));
  }

  lemma DropOldestOrdered(st: Store)
    requires Ordered(st)
    ensures Ordered(DropOldest(st))
  {
    DropOldestIs(st);
    NamesSplit(st.order, Min(Overflow(st), |st.order|));
  }

  lemma DropOldestKeeps(st: Store, notes: seq<Note>, clock: int)
    requires Inv(st, notes, clock)
    ensures Inv(DropOldest(st), Forget(notes, Oldest(st)), clock)
  {
    var next, gone := DropOldest(st), Oldest(st);
    DropOldestOrdered(st);
    DropOldestIs(st);
    forall ip, kind, at | at >= clock
      ensures KindLive(next, ip, kind, at) == NoteLive(Forget(notes, gone), ip, kind, at)
    {
      ForgetNotes(notes, gone, ip, kind, at);
      assert KindLive(st, ip, kind, at) == NoteLive(notes, ip, kind, at);
    }
    forall ip, at | at >= clock
      ensures AllLive(next, ip, at) == PairLive(Forget(notes, gone), ip, at)
    {
      ForgetPairs(notes, gone, ip, at);
      assert AllLive(st, ip, at) == PairLive(notes, ip, at);
    }
  }

  lemma {:induction false} DistinctCount(order: seq<string>)
    requires Distinct(order)
    ensures |Names(order)| == |order|
  {
    if order != [] {
      DistinctCount(order[1..]);
      assert Names(order) == {order[0]} + Names(order[1..]);
      assert order[0] !in order[1..];
    }
  }

  lemma OrderedCount(st: Store)
    requires Ordered(st)
    ensures |st.surfaces| == |st.order|
  {
    DistinctCount(st.order);
    assert |st.surfaces| == |st.surfaces.Keys|;
  }

  lemma DropOldestFits(st: Store)
    requires Ordered(st)
    ensures |DropOldest(st).surfaces| <= MAX_TRACKED_IPS
  {
    DropOldestIs(st);
    DropOldestOrdered(st);
    OrderedCount(st);
    OrderedCount(DropOldest(st));
  }

  lemma CoveredCount(st: Store)
    requires Covered(st)
    ensures st.all.Keys <= st.surfaces.Keys && |st.all| <= |st.surfaces|
  {
    SubsetCount(st.all.Keys, st.surfaces.Keys);
    assert |st.surfaces| == |st.surfaces.Keys| && |st.all| == |st.all.Keys|;
  }

  /** Both maps are within the cap once it has been enforced. */
  lemma CapHolds(st: Store, now: int, notes: seq<Note>)
    requires Inv(st, notes, now)
    ensures |Capped(st, now).surfaces| <= MAX_TRACKED_IPS && |Capped(st, now).all| <= MAX_TRACKED_IPS
  {
    if OverCap(st) {
      PruneAllKeeps(st, now, notes);
      DropOldestKeeps(AllPruned(st, now), notes, now);
      DropOldestFits(AllPruned(st, now));
      CoveredCount(DropOldest(AllPruned(st, now)));
    }
  }

  lemma EnforceCapKeeps(st: Store, now: int, notes: seq<Note>)
    requires Inv(st, notes, now)
    ensures Inv(Capped(st, now), Forget(notes, Evicted(st, now)), now)
  {
    if OverCap(st) {
      PruneAllKeeps(st, now, notes);
      DropOldestKeeps(AllPruned(st, now), notes, now);
    } else {
      ForgetNobody(notes);
    }
  }

  // ---------- Whole runs ----------

  /** Addresses are as trimming left them, and `until` is the time of the call plus the TTL. */
  datatype Call = Throttled(ip: string, kind: Kind, now: int, until: int) | Asks(ip: string, kind: Kind, now: int)

  function NoteCall(ip: string, kind: Kind, now: int, ttlMs: int): Call {
    Throttled(Trim(ip), kind, now, now + ttlMs)
  }

  function After(st: Store, c: Call): Store {
    match c
    case Throttled(ip, kind, now, until) => Noted(st, ip, kind, now, until)
    case Asks(ip, _, now) => Asked(st, ip, now)
  }

  /** The history with one note more, less those of the addresses the cap drops. */
  function WithNote(st: Store, notes: seq<Note>, ip: string, kind: Kind, now: int, until: int): seq<Note> {
    if ip == "" then notes
    else Forget(notes + [Note(ip, kind, now, until)], Evicted(Entered(st, ip, kind, now, until), now))
  }

  function Remembered(st: Store, notes: seq<Note>, c: Call): seq<Note> {
    match c
    case Throttled(ip, kind, now, until) => WithNote(st, notes, ip, kind, now, until)
    case Asks(_, _, _) => notes
  }

  lemma Later(st: Store, notes: seq<Note>, clock: int, now: int)
    requires Inv(st, notes, clock) && clock <= now
    ensures Inv(st, notes, now)
  {
  }

  lemma EnteredKeeps(st: Store, notes: seq<Note>, clock: int, ip: string, kind: Kind, now: int, until: int)
    requires Inv(st, notes, clock) && clock <= now
    ensures Inv(Entered(st, ip, kind, now, until), notes + [Note(ip, kind, now, until)], now)
  {
    PruneIpKeeps(st, ip, now, notes, clock);
    EnterKeeps(Pruned(st, ip, now), notes, ip, kind, now, until);
  }

  lemma NoteKeeps(st: Store, notes: seq<Note>, clock: int, ip: string, kind: Kind, now: int, until: int)
    requires Inv(st, notes, clock) && clock <= now
    ensures Inv(Noted(st, ip, kind, now, until), WithNote(st, notes, ip, kind, now, until), now)
  {
    if ip == "" {
      Later(st, notes, clock, now);
    } else {
      var entered, more := Entered(st, ip, kind, now, until), notes + [Note(ip, kind, now, until)];
      assert Inv(entered, more, now) by {
        EnteredKeeps(st, notes, clock, ip, kind, now, until);
      }
      EnforceCapKeeps(entered, now, more);
    }
  }

  lemma AskKeeps(st: Store, notes: seq<Note>, clock: int, ip: string, now: int)
    requires Inv(st, notes, clock) && clock <= now
    ensures Inv(Asked(st, ip, now), notes, now)
  {
    Later(st, notes, clock, now);
    PruneIpKeeps(st, ip, now, notes, clock);
  }

  lemma CallKeeps(st: Store, notes: seq<Note>, clock: int, c: Call)
    requires Inv(st, notes, clock) && clock <= c.now
    ensures Inv(After(st, c), Remembered(st, notes, c), c.now)
  {
    if c.Throttled? {
      NoteKeeps(st, notes, clock, c.ip, c.kind, c.now, c.until);
    } else {
      AskKeeps(st, notes, clock, c.ip, c.now);
    }
  }

  function RunStore(calls: seq<Call>): Store {
    if calls == [] then Store(map[], map[], []) else After(RunStore(calls[..|calls| - 1]), calls[|calls| - 1])
  }

  function RunNotes(calls: seq<Call>): seq<Note> {
    if calls == [] then []
    else Remembered(RunStore(calls[..|calls| - 1]), RunNotes(calls[..|calls| - 1]), calls[|calls| - 1])
  }

  /** Times never go back, and `now` is not before any of them. */
  predicate Timely(calls: seq<Call>, now: int) {
    if calls == [] then now >= 0
    else Timely(calls[..|calls| - 1], calls[|calls| - 1].now) && calls[|calls| - 1].now <= now
  }

  lemma {:induction false} RunKeeps(calls: seq<Call>, now: int)
    requires Timely(calls, now)
    ensures Inv(RunStore(calls), RunNotes(calls), now)
  {
    if calls != [] {
      var front, last := calls[..|calls| - 1], calls[|calls| - 1];
      RunKeeps(front, last.now);
      CallKeeps(RunStore(front), RunNotes(front), last.now, last);
      Later(RunStore(calls), RunNotes(calls), last.now, now);
    }
  }

  /** The answer is what the remembered history says. */
  lemma AnswerIsHistory(calls: seq<Call>, ip: string, kind: Kind, now: int)
    requires Timely(calls, now)
    ensures Answer(RunStore(calls), ip, kind, now) <==>
      ip != "" && (NoteLive(RunNotes(calls), ip, kind, now) || PairLive(RunNotes(calls), ip, now))
  {
    RunKeeps(calls, now);
    AnswerFits(RunStore(calls), RunNotes(calls), now, ip, kind);
  }

  lemma AnswerFits(st: Store, notes: seq<Note>, now: int, ip: string, kind: Kind)
    requires Inv(st, notes, now)
    ensures Answer(st, ip, kind, now) <==> ip != "" && (NoteLive(notes, ip, kind, now) || PairLive(notes, ip, now))
  {
    PruneIpAnswers(st, ip, now, ip, kind, now);
    assert KindLive(st, ip, kind, now) == NoteLive(notes, ip, kind, now);
    assert AllLive(st, ip, now) == PairLive(notes, ip, now);
  }

  // ---------- The size of the maps ----------

  predicate Small(st: Store) {
    match st
    case Store(surfaces, all, _) => |surfaces| <= MAX_TRACKED_IPS && |all| <= MAX_TRACKED_IPS
  }

  lemma PruneIpShrinks(st: Store, ip: string, now: int)
    ensures Pruned(st, ip, now).surfaces.Keys <= st.surfaces.Keys && Pruned(st, ip, now).all.Keys <= st.all.Keys
  {
  }

  lemma SmallerMap<K, V>(a: map<K, V>, b: map<K, V>)
    requires a.Keys <= b.Keys
    ensures |a| <= |b|
  {
    SubsetCount(a.Keys, b.Keys);
    assert |a| == |a.Keys| && |b| == |b.Keys|;
  }

  lemma AskStaysSmall(st: Store, ip: string, now: int)
    requires Small(st)
    ensures Small(Asked(st, ip, now))
  {
    PruneIpShrinks(st, ip, now);
    SmallerMap(Pruned(st, ip, now).surfaces, st.surfaces);
    SmallerMap(Pruned(st, ip, now).all, st.all);
  }

  lemma NoteStaysSmall(st: Store, notes: seq<Note>, clock: int, ip: string, kind: Kind, now: int, until: int)
    requires Inv(st, notes, clock) && clock <= now && Small(st)
    ensures Small(Noted(st, ip, kind, now, until))
  {
    if ip != "" {
      EnteredKeeps(st, notes, clock, ip, kind, now, until);
      CapHolds(Entered(st, ip, kind, now, until), now, notes + [Note(ip, kind, now, until)]);
    }
  }

  lemma CallStaysSmall(st: Store, notes: seq<Note>, clock: int, c: Call)
    requires Inv(st, notes, clock) && clock <= c.now && Small(st)
    ensures Small(After(st, c))
  {
    if c.Throttled? {
      NoteStaysSmall(st, notes, clock, c.ip, c.kind, c.now, c.until);
    } else {
      AskStaysSmall(st, c.ip, c.now);
    }
  }

  /** In every state neither map outgrows the cap, and the address-wide map names only addresses of the other. */
  lemma {:induction false} RunStaysSmall(calls: seq<Call>, now: int)
    requires Timely(calls, now)
    ensures Small(RunStore(calls)) && RunStore(calls).all.Keys <= RunStore(calls).surfaces.Keys
  {
    RunKeeps(calls, now);
    if calls != [] {
      var front, last := calls[..|calls| - 1], calls[|calls| - 1];
      RunStaysSmall(front, last.now);
      RunKeeps(front, last.now);
      CallStaysSmall(RunStore(front), RunNotes(front), last.now, last);
    }
  }

  // ---------- Below the cap, the whole history ----------

  function Added(notes: seq<Note>, ip: string, kind: Kind, now: int, until: int): seq<Note> {
    if ip == "" then notes else notes + [Note(ip, kind, now, until)]
  }

  function WithCall(notes: seq<Note>, c: Call): seq<Note> {
    match c
    case Throttled(ip, kind, now, until) => Added(notes, ip, kind, now, until)
    case Asks(_, _, _) => notes
  }

  function AllNotes(calls: seq<Call>): seq<Note> {
    if calls == [] then [] else WithCall(AllNotes(calls[..|calls| - 1]), calls[|calls| - 1])
  }

  /** The addresses with a live note. */
  function LiveIps(notes: seq<Note>, at: int): set<string> {
    set n | n in notes && n.until > at :: n.ip
  }

  /** At every note, no more addresses than the cap have a live note. */
  predicate NeverCrowded(calls: seq<Call>) {
    calls != [] ==>
      var last := calls[|calls| - 1];
      NeverCrowded(calls[..|calls| - 1])
      && (last.Throttled? && last.ip != "" ==> |LiveIps(AllNotes(calls), last.now)| <= MAX_TRACKED_IPS)
  }

  predicate OnlyLive(kinds: map<Kind, int>, now: int) {
    kinds != map[] && forall k | k in kinds :: kinds[k] > now
  }

  lemma {:induction false} PruneEachLeavesLive(st: Store, ips: seq<string>, now: int, ip: string)
    requires ip in PruneEach(st, ips, now).surfaces
    requires ip in ips || (ip in st.surfaces && OnlyLive(st.surfaces[ip], now))
    ensures OnlyLive(PruneEach(st, ips, now).surfaces[ip], now)
    decreases |ips|
  {
    if ips != [] {
      var next := Pruned(st, ips[0], now);
      if ip == ips[0] && ip !in next.surfaces {
        PruneEachShrinks(next, ips[1..], now);
      } else {
        assert ip in ips ==> ip == ips[0] || ip in ips[1..];
        PruneEachLeavesLive(next, ips[1..], now, ip);
      }
    }
  }

  lemma {:induction false} PruneEachShrinks(st: Store, ips: seq<string>, now: int)
    ensures PruneEach(st, ips, now).surfaces.Keys <= st.surfaces.Keys
    decreases |ips|
  {
    if ips != [] {
      PruneIpShrinks(st, ips[0], now);
      PruneEachShrinks(Pruned(st, ips[0], now), ips[1..], now);
    }
  }

  lemma NoteMakesLive(notes: seq<Note>, ip: string, kind: Kind, at: int)
    requires NoteLive(notes, ip, kind, at)
    ensures ip in LiveIps(notes, at)
  {
    NoteLiveMeans(notes, ip, kind, at);
    var i :| 0 <= i < |notes| && LiveAt(notes[i], ip, kind, at);
    assert notes[i] in notes;
  }

  lemma LiveHasNote(notes: seq<Note>, ip: string, at: int) returns (kind: Kind)
    requires ip in LiveIps(notes, at)
    ensures NoteLive(notes, ip, kind, at)
  {
    var n :| n in notes && n.until > at && n.ip == ip;
    kind := n.kind;
    NoteLiveMeans(notes, ip, kind, at);
    assert LiveAt(n, ip, kind, at);
  }

  /** Pruning leaves exactly the addresses with a live note. */
  lemma PrunedAreLive(st: Store, notes: seq<Note>, now: int)
    requires Inv(st, notes, now)
    ensures AllPruned(st, now).surfaces.Keys == LiveIps(notes, now)
  {
    var pruned := AllPruned(st, now);
    PruneAllKeeps(st, now, notes);
    PruneEachShrinks(st, st.order, now);
    forall ip
      ensures ip in pruned.surfaces <==> ip in LiveIps(notes, now)
    {
      if ip in pruned.surfaces {
        assert ip in Names(st.order);
        PruneEachLeavesLive(st, st.order, now, ip);
        var kind :| kind in pruned.surfaces[ip];
        assert KindLive(pruned, ip, kind, now) == NoteLive(notes, ip, kind, now);
        NoteMakesLive(notes, ip, kind, now);
      }
      if ip in LiveIps(notes, now) {
        var kind := LiveHasNote(notes, ip, now);
        assert KindLive(pruned, ip, kind, now) == NoteLive(notes, ip, kind, now);
      }
    }
  }

  /** The cap drops only live addresses, and some exactly when there are too many. */
  lemma EvictedExactly(st: Store, notes: seq<Note>, now: int)
    requires Inv(st, notes, now)
    ensures Evicted(st, now) <= LiveIps(notes, now)
    ensures Evicted(st, now) == {} <==> |LiveIps(notes, now)| <= MAX_TRACKED_IPS
  {
    var pruned := AllPruned(st, now);
    PrunedAreLive(st, notes, now);
    PruneAllKeeps(st, now, notes);
    assert |pruned.surfaces| == |pruned.surfaces.Keys|;
    if OverCap(st) {
      OldestExactly(pruned);
    } else {
      PruneEachShrinks(st, st.order, now);
      SmallerMap(pruned.surfaces, st.surfaces);
    }
  }

  lemma OldestExactly(st: Store)
    requires Ordered(st)
    ensures Oldest(st) <= st.surfaces.Keys
    ensures Oldest(st) == {} <==> |st.surfaces| <= MAX_TRACKED_IPS
  {
    OrderedCount(st);
    var n := Min(Overflow(st), |st.order|);
    if n > 0 {
      assert st.order[0] in st.order[..n];
      assert st.order[0] in Oldest(st);
    } else {
      assert st.order[..n] == [];
    }
    assert Oldest(st) <= Names(st.order);
  }

  /** The names of a list that are in the set, in the order of the list. */
  function Restrict(order: seq<string>, names: set<string>): seq<string> {
    if order == [] then []
    else (if order[0] in names then [order[0]] else []) + Restrict(order[1..], names)
  }

  lemma {:induction false} RestrictWithout(order: seq<string>, ip: string, names: set<string>)
    requires ip !in names
    ensures Restrict(Without(order, ip), names) == Restrict(order, names)
  {
    if order != [] {
      RestrictWithout(order[1..], ip, names);
      if order[0] != ip {
        assert ([order[0]] + Without(order[1..], ip))[1..] == Without(order[1..], ip);
      }
    }
  }

  lemma {:induction false} RestrictAll(order: seq<string>, names: set<string>)
    requires Names(order) <= names
    ensures Restrict(order, names) == order
  {
    if order != [] {
      assert order[0] in Names(order) && Names(order[1..]) <= Names(order);
      RestrictAll(order[1..], names);
    }
  }

  lemma {:induction false} PruneEachOrder(st: Store, ips: seq<string>, now: int)
    requires Ordered(st)
    ensures Ordered(PruneEach(st, ips, now))
    ensures PruneEach(st, ips, now).order == Restrict(st.order, PruneEach(st, ips, now).surfaces.Keys)
    decreases |ips|
  {
    var left := PruneEach(st, ips, now).surfaces.Keys;
    if ips == [] {
      RestrictAll(st.order, left);
    } else {
      var next := Pruned(st, ips[0], now);
      WithoutKeeps(st.order, ips[0]);
      PruneEachOrder(next, ips[1..], now);
      PruneEachShrinks(next, ips[1..], now);
      if next.order != st.order {
        RestrictWithout(st.order, ips[0], left);
      }
    }
  }

  /** The cap drops nobody while at most 20 000 addresses are live, and otherwise the oldest live ones, as many as there
      are too many. */
  lemma EvictedAreOldest(st: Store, notes: seq<Note>, now: int)
    requires Inv(st, notes, now)
    ensures var live := LiveIps(notes, now);
      var order := Restrict(st.order, live);
      Names(order) == live && Distinct(order)
      && if |live| <= 20_000 then Evicted(st, now) == {}
         else |live| - 20_000 <= |order| && Evicted(st, now) == Names(order[..|live| - 20_000])
  {
    var pruned := AllPruned(st, now);
    PrunedAreLive(st, notes, now);
    PruneAllKeeps(st, now, notes);
    PruneEachOrder(st, st.order, now);
    OrderedCount(pruned);
    EvictedExactly(st, notes, now);
    assert |pruned.surfaces| == |pruned.surfaces.Keys|;
  }

  lemma {:induction false} ForgetShortens(notes: seq<Note>, gone: set<string>)
    ensures |Forget(notes, gone)| <= |notes|
    ensures (exists n :: n in notes && n.ip in gone) ==> |Forget(notes, gone)| < |notes|
  {
    if notes != [] {
      ForgetShortens(notes[..|notes| - 1], gone);
      if n :| n in notes && n.ip in gone {
        assert n in notes[..|notes| - 1] || n == notes[|notes| - 1];
      }
    }
  }

  lemma NoteForgetsExactly(st: Store, notes: seq<Note>, clock: int, c: Call)
    requires Inv(st, notes, clock) && c.Throttled? && clock <= c.now && c.ip != ""
    ensures var more := WithCall(notes, c);
      if |LiveIps(more, c.now)| <= MAX_TRACKED_IPS then Remembered(st, notes, c) == more
      else |Remembered(st, notes, c)| < |more|
  {
    var entered, more := Entered(st, c.ip, c.kind, c.now, c.until), notes + [Note(c.ip, c.kind, c.now, c.until)];
    EnteredKeeps(st, notes, clock, c.ip, c.kind, c.now, c.until);
    EvictedExactly(entered, more, c.now);
    if |LiveIps(more, c.now)| <= MAX_TRACKED_IPS {
      ForgetNobody(more);
    } else {
      var gone := Evicted(entered, c.now);
      var ip :| ip in gone;
      assert ip in LiveIps(more, c.now);
      ForgetShortens(more, gone);
    }
  }

  lemma RememberedGrowth(st: Store, notes: seq<Note>, c: Call)
    ensures |Remembered(st, notes, c)| <= |WithCall(notes, c)|
  {
    if c.Throttled? && c.ip != "" {
      ForgetShortens(notes + [Note(c.ip, c.kind, c.now, c.until)],
                     Evicted(Entered(st, c.ip, c.kind, c.now, c.until), c.now));
    }
  }

  /** The maps stand for all notes ever made exactly when at every note no more addresses than the cap were live. */
  lemma NothingForgottenExactly(calls: seq<Call>, now: int)
    requires Timely(calls, now)
    ensures RunNotes(calls) == AllNotes(calls) <==> NeverCrowded(calls)
  {
    ForgottenCounts(calls, now);
  }

  lemma {:induction false} ForgottenCounts(calls: seq<Call>, now: int)
    requires Timely(calls, now)
    ensures if NeverCrowded(calls) then RunNotes(calls) == AllNotes(calls) else |RunNotes(calls)| < |AllNotes(calls)|
  {
    if calls != [] {
      var front, last := calls[..|calls| - 1], calls[|calls| - 1];
      ForgottenCounts(front, last.now);
      RunKeeps(front, last.now);
      RememberedGrowth(RunStore(front), RunNotes(front), last);
      if last.Throttled? && last.ip != "" && NeverCrowded(front) {
        NoteForgetsExactly(RunStore(front), RunNotes(front), last.now, last);
      }
    }
  }

  predicate LiveAt(n: Note, ip: string, kind: Kind, at: int) {
    n.ip == ip && n.kind == kind && n.until > at
  }

  lemma {:induction false} NoteLiveMeans(notes: seq<Note>, ip: string, kind: Kind, at: int)
    ensures NoteLive(notes, ip, kind, at) <==> exists i :: 0 <= i < |notes| && LiveAt(notes[i], ip, kind, at)
  {
    if notes != [] {
      var front := notes[..|notes| - 1];
      NoteLiveMeans(front, ip, kind, at);
      assert forall i | 0 <= i < |front| :: front[i] == notes[i];
      if i :| 0 <= i < |notes| && LiveAt(notes[i], ip, kind, at) {
        assert i < |front| ==> LiveAt(front[i], ip, kind, at);
      }
    }
  }

  /** Two notes of one address and different kinds, the first live when the second came, the second live at `at`. */
  predicate Burst(first: Note, second: Note, ip: string, at: int) {
    first.ip == ip && second.ip == ip && first.kind != second.kind && first.until > second.now && second.until > at
  }

  lemma {:induction false} PairLiveMeans(notes: seq<Note>, ip: string, at: int)
    ensures PairLive(notes, ip, at) <==> exists i, j :: 0 <= i < j < |notes| && Burst(notes[i], notes[j], ip, at)
  {
    if notes != [] {
      var front, n := notes[..|notes| - 1], notes[|notes| - 1];
      PairLiveMeans(front, ip, at);
      assert forall i | 0 <= i < |front| :: front[i] == notes[i];
      forall kind: Kind {
        NoteLiveMeans(front, ip, kind, n.now);
      }
      if PairLive(notes, ip, at) {
        if PairLive(front, ip, at) {
          var i, j :| 0 <= i < j < |front| && Burst(front[i], front[j], ip, at);
          assert Burst(notes[i], notes[j], ip, at);
        } else {
          var kind: Kind :| kind != n.kind && NoteLive(front, ip, kind, n.now);
          var i :| 0 <= i < |front| && LiveAt(front[i], ip, kind, n.now);
          assert Burst(notes[i], notes[|notes| - 1], ip, at);
        }
      }
      if i, j :| 0 <= i < j < |notes| && Burst(notes[i], notes[j], ip, at) {
        if j < |front| {
          assert Burst(front[i], front[j], ip, at);
        } else {
          assert LiveAt(front[i], ip, notes[i].kind, n.now);
          assert NoteLive(front, ip, notes[i].kind, n.now);
        }
      }
    }
  }

  /** While no more addresses than the cap are live at a time, an answer is read off all notes ever made. */
  lemma EscalatedExactly(calls: seq<Call>, ip: string, kind: Kind, now: int)
    requires Timely(calls, now) && NeverCrowded(calls) && ip != ""
    ensures var notes := AllNotes(calls);
      Answer(RunStore(calls), ip, kind, now) <==>
        ((exists i :: 0 <= i < |notes| && LiveAt(notes[i], ip, kind, now))
        || (exists i, j :: 0 <= i < j < |notes| && Burst(notes[i], notes[j], ip, now)))
  {
    NothingForgottenExactly(calls, now);
    AnswerIsHistory(calls, ip, kind, now);
    NoteLiveMeans(AllNotes(calls), ip, kind, now);
    PairLiveMeans(AllNotes(calls), ip, now);
  }

  /** A note of no address is not kept; any other is while at most 20 000 addresses are live. */
  ghost predicate KeepsNote(notes: seq<Note>, ip: string, kind: Kind, now: int, until: int, notes': seq<Note>) {
    var more := notes + [Note(ip, kind, now, until)];
    if ip == "" then notes' == notes else |LiveIps(more, now)| <= 20_000 ==> notes' == more
  }

  lemma NoteIsKept(st: Store, notes: seq<Note>, clock: int, c: Call)
    requires Consistent(st, notes, clock) && c.Throttled? && clock <= c.now
    ensures KeepsNote(notes, c.ip, c.kind, c.now, c.until, Remembered(st, notes, c))
  {
    if c.ip != "" {
      NoteForgetsExactly(st, notes, clock, c);
    }
  }

  /** So for the note that notePublicThrottle429 makes: of the trimmed address, live for the time to live. */
  lemma ThrottleIsNoted(
    st: Store, notes: seq<Note>, clock: int, ip: string, trimmed: string, kind: Kind, now: int, ttlMs: int, until: int)
    requires Consistent(st, notes, clock) && clock <= now && trimmed == Trim(ip) && until == now + ttlMs
    ensures KeepsNote(notes, trimmed, kind, now, until, Remembered(st, notes, NoteCall(ip, kind, now, ttlMs)))
  {
    NoteIsKept(st, notes, clock, Throttled(trimmed, kind, now, until));
    assert NoteCall(ip, kind, now, ttlMs) == Throttled(trimmed, kind, now, until);
  }

  // ---------- The process-local state ----------

  ghost predicate Consistent(st: Store, notes: seq<Note>, clock: int) {
    match st
    case Store(_, _, _) => Inv(st, notes, clock) && Small(st)
  }

  lemma CallStaysConsistent(st: Store, notes: seq<Note>, clock: int, c: Call)
    requires Consistent(st, notes, clock) && clock <= c.now
    ensures Consistent(After(st, c), Remembered(st, notes, c), c.now)
  {
    CallKeeps(st, notes, clock, c);
    CallStaysSmall(st, notes, clock, c);
  }

  /** What Record needs before the cap is enforced. */
  lemma ReadyForCap(st: Store, notes: seq<Note>, clock: int, c: Call)
    requires Consistent(st, notes, clock) && c.Throttled? && clock <= c.now
    ensures Inv(Entered(st, c.ip, c.kind, c.now, c.until), notes + [Note(c.ip, c.kind, c.now, c.until)], c.now)
  {
    EnteredKeeps(st, notes, clock, c.ip, c.kind, c.now, c.until);
  }

  lemma ConsistentAnswer(st: Store, notes: seq<Note>, clock: int, now: int, ip: string, kind: Kind)
    requires Consistent(st, notes, clock) && clock <= now
    ensures Answer(st, ip, kind, now) <==> ip != "" && (NoteLive(notes, ip, kind, now) || PairLive(notes, ip, now))
  {
    Later(st, notes, clock, now);
    AnswerFits(st, notes, now, ip, kind);
  }

  lemma Overwrite<K, V>(m: map<K, V>, k: K, v: V, w: V)
    ensures m[k := v][k := w] == m[k := w]
  {
  }

  class EscalationState {
    var byIpSurface: map<string, map<Kind, int>>
    var byIpAll: map<string, int>
    var order: seq<string>
    /** The history: all notes but those of addresses dropped by the cap, and the time of the last call. */
    ghost var notes: seq<Note>
    ghost var clock: int

    ghost predicate Valid()
      reads this
    {
      Consistent(View(), notes, clock)
    }

    function View(): Store
      reads this
    {
      Store(byIpSurface, byIpAll, order)
    }

    constructor ()
      ensures Valid() && notes == [] && clock == 0 && View() == Store(map[], map[], [])
    {
      byIpSurface, byIpAll, order := map[], map[], [];
      notes, clock := [], 0;
    }

    method DeleteSurfaces(ip: string)
      requires ip in byIpSurface
      modifies this`byIpSurface, this`order
      ensures byIpSurface == old(byIpSurface) - {ip} && order == Without(old(order), ip)
    {
      byIpSurface := byIpSurface - {ip};
      order := Without(order, ip);
    }

    method PruneIp(ip: string, now: int)
      modifies this`byIpSurface, this`byIpAll, this`order
      ensures View() == Pruned(old(View()), ip, now)
    {
      if ip in byIpSurface {
        var start := byIpSurface[ip];
        var surfaces, rest := start, start.Keys;
        while rest != {}
          invariant rest <= start.Keys
          invariant forall k :: k in surfaces <==> k in start && (k in rest || start[k] > now)
          invariant forall k | k in surfaces :: surfaces[k] == start[k]
          decreases |rest|
        {
          var kind :| kind in rest;
          if start[kind] <= now {
            surfaces := surfaces - {kind};
          }
          rest := rest - {kind};
        }
        assert surfaces == LiveOnly(start, now);
        if surfaces == map[] {
          DeleteSurfaces(ip);
        } else {
          byIpSurface := byIpSurface[ip := surfaces];
        }
      }
      if ip in byIpAll && byIpAll[ip] <= now {
        byIpAll := byIpAll - {ip};
      }
    }

    method PruneAll(now: int)
      modifies this`byIpSurface, this`byIpAll, this`order
      ensures View() == AllPruned(old(View()), now)
    {
      var ips := order;
      var i := 0;
      while i < |ips|
        invariant 0 <= i <= |ips|
        invariant PruneEach(View(), ips[i..], now) == PruneEach(old(View()), ips, now)
      {
        assert ips[i..][0] == ips[i] && ips[i..][1..] == ips[i + 1..];
        PruneIp(ips[i], now);
        i := i + 1;
      }
      var start := byIpAll;
      var rest := start.Keys;
      while rest != {}
        invariant rest <= start.Keys
        invariant byIpSurface == PruneEach(old(View()), ips, now).surfaces
        invariant order == PruneEach(old(View()), ips, now).order
        invariant forall ip :: ip in byIpAll <==> ip in start && (ip in rest || start[ip] > now)
        invariant forall ip | ip in byIpAll :: byIpAll[ip] == start[ip]
        decreases |rest|
      {
        var ip :| ip in rest;
        if byIpAll[ip] <= now {
          byIpAll := byIpAll - {ip};
        }
        rest := rest - {ip};
      }
    }

    /** The surviving names are those after the dropped ones. */
    method EnforceCap(now: int, ghost history: seq<Note>)
      requires Inv(View(), history, now)
      modifies this`byIpSurface, this`byIpAll, this`order
      ensures View() == Capped(old(View()), now)
    {
      if |byIpSurface| + |byIpAll| <= MAX_TRACKED_IPS {
        return;
      }
      PruneAllKeeps(View(), now, history);
      PruneAll(now);
      if |byIpSurface| <= MAX_TRACKED_IPS {
        return;
      }
      DropNames(Overflow(View()));
    }

    method DropNames(overflow: nat)
      requires Names(order) <= byIpSurface.Keys
      modifies this`byIpSurface, this`byIpAll, this`order
      ensures View() == DropFirsts(old(View()), overflow)
    {
      var dropped := 0;
      ghost var left: nat := overflow;
      while dropped < overflow && order != []
        invariant left + dropped == overflow && Names(order) <= byIpSurface.Keys
        invariant DropFirsts(View(), left) == DropFirsts(old(View()), overflow)
      {
        var ip := order[0];
        WithoutKeeps(order, ip);
        assert ip in Names(order);
        DeleteSurfaces(ip);
        byIpAll := byIpAll - {ip};
        dropped, left := dropped + 1, left - 1;
      }
    }

    method CountActive(surfaces: map<Kind, int>, now: int) returns (activeKinds: nat)
      ensures activeKinds == |ActiveKinds(surfaces, now)|
    {
      activeKinds := 0;
      var rest := surfaces.Keys;
      ghost var seen: set<Kind> := {};
      while rest != {}
        invariant rest <= surfaces.Keys && seen == set k | k in surfaces && k !in rest && surfaces[k] > now
        invariant activeKinds == |seen|
        decreases |rest|
      {
        var kind :| kind in rest;
        if surfaces[kind] > now {
          activeKinds := activeKinds + 1;
          seen := seen + {kind};
        }
        rest := rest - {kind};
      }
      assert seen == ActiveKinds(surfaces, now);
    }

    method EnterNote(ip: string, surface: Kind, now: int, until: int)
      modifies this`byIpSurface, this`byIpAll, this`order
      ensures View() == Enter(old(View()), ip, surface, now, until)
    {
      if ip !in byIpSurface {
        byIpSurface := byIpSurface[ip := map[]];
        order := order + [ip];
      }
      var surfaces := byIpSurface[ip];
      surfaces := surfaces[surface := Max(Until(surfaces, surface), until)];
      Overwrite(old(byIpSurface), ip, map[], surfaces);
      byIpSurface := byIpSurface[ip := surfaces];
      var activeKinds := CountActive(surfaces, now);
      if activeKinds >= 2 {
        var prevAll := if ip in byIpAll then byIpAll[ip] else 0;
        byIpAll := byIpAll[ip := Max(prevAll, until)];
      }
    }

    method NotePublicThrottle429(ip: string, surface: Kind, now: int, ttlMs: int)
      requires Valid() && clock <= now
      modifies this
      ensures Valid() && clock == now
      ensures View() == After(old(View()), NoteCall(ip, surface, now, ttlMs))
      ensures notes == Remembered(old(View()), old(notes), NoteCall(ip, surface, now, ttlMs))
    {
      Record(NoteCall(ip, surface, now, ttlMs));
    }

    method Record(c: Call)
      requires Valid() && c.Throttled? && clock <= c.now
      modifies this
      ensures Valid() && clock == c.now
      ensures View() == After(old(View()), c) && notes == Remembered(old(View()), old(notes), c)
    {
      CallStaysConsistent(View(), notes, clock, c);
      ReadyForCap(View(), notes, clock, c);
      ghost var more := notes + [Note(c.ip, c.kind, c.now, c.until)];
      notes := Remembered(View(), notes, c);
      clock := c.now;
      EnterAndCap(c, more);
    }

    method EnterAndCap(c: Call, ghost history: seq<Note>)
      requires c.Throttled? && Inv(Entered(View(), c.ip, c.kind, c.now, c.until), history, c.now)
      modifies this`byIpSurface, this`byIpAll, this`order
      ensures View() == After(old(View()), c)
    {
      if c.ip != "" {
        PruneIp(c.ip, c.now);
        EnterNote(c.ip, c.kind, c.now, c.until);
        EnforceCap(c.now, history);
      }
    }

    method IsCaptchaEscalated(ip: string, surface: Kind, now: int) returns (escalated: bool)
      requires Valid() && clock <= now
      modifies this
      ensures Valid() && clock == now && notes == old(notes)
      ensures View() == Asked(old(View()), Trim(ip), now)
      ensures escalated == Answer(old(View()), Trim(ip), surface, now)
      ensures escalated <==>
        Trim(ip) != "" && (NoteLive(notes, Trim(ip), surface, now) || PairLive(notes, Trim(ip), now))
    {
      var trimmed := Trim(ip);
      escalated := AskTrimmed(trimmed, surface, now);
    }

    method AskTrimmed(trimmed: string, surface: Kind, now: int) returns (escalated: bool)
      requires Valid() && clock <= now
      modifies this
      ensures Valid() && clock == now && notes == old(notes)
      ensures View() == Asked(old(View()), trimmed, now)
      ensures escalated == Answer(old(View()), trimmed, surface, now)
      ensures escalated <==> trimmed != "" && (NoteLive(notes, trimmed, surface, now) || PairLive(notes, trimmed, now))
    {
      ghost var start := View();
      CallStaysConsistent(start, notes, clock, Asks(trimmed, surface, now));
      ConsistentAnswer(start, notes, clock, now, trimmed, surface);
      clock := now;
      escalated := ReadTrimmed(trimmed, surface, now);
    }

    method ReadTrimmed(trimmed: string, surface: Kind, now: int) returns (escalated: bool)
      modifies this`byIpSurface, this`byIpAll, this`order
      ensures View() == Asked(old(View()), trimmed, now)
      ensures escalated == Answer(old(View()), trimmed, surface, now)
    {
      escalated := false;
      if trimmed != "" {
        PruneIp(trimmed, now);
        escalated := (trimmed in byIpAll && byIpAll[trimmed] > now)
          || (trimmed in byIpSurface && surface in byIpSurface[trimmed] && byIpSurface[trimmed][surface] > now);
      }
    }
  }
}
