/** venue-timezone.util.ts and business-day.util.ts: wall-clock inversion and business days, over an abstract zone. */
module VenueTime {
  const SECOND := 1000
  const MINUTE := 60 * SECOND
  const HOUR := 60 * MINUTE
  const DAY := 24 * HOUR

  /** The offset in milliseconds that a zone has at each instant (milliseconds since the epoch). */
  type Zone = int -> int

  datatype Checked<T> = Ok(value: T) | RangeError

  /** What clocks in the zone show, as milliseconds since the epoch of the local calendar. */
  function WallClock(zone: Zone, at: int): int {
    at + zone(at)
  }

  ghost predicate Shows(zone: Zone, at: int, wall: int) {
    WallClock(zone, at) == wall
  }

  ghost predicate InWholeSeconds(zone: Zone) {
    forall at :: zone(at) % SECOND == 0
  }

  // ---------- Inverting the wall clock ----------

  /** The formatted wall clock has no milliseconds. */
  function WallClockOffset(zone: Zone, at: int): int {
    WallClock(zone, at) / SECOND * SECOND - at
  }

  function Nudge(zone: Zone, desired: int, at: int): int {
    desired - WallClockOffset(zone, at)
  }

  function WallTimeToUtc(zone: Zone, desired: int): int {
    Nudge(zone, desired, Nudge(zone, desired, Nudge(zone, desired, desired)))
  }

  /** Date.UTC for a day number and a time of day. */
  function AsUtc(day: int, hour: int, minute: int): int {
    day * DAY + hour * HOUR + minute * MINUTE
  }

  /** The offset is what separates the instant from the last whole second that clocks have shown. */
  lemma OffsetExactly(zone: Zone, at: int)
    ensures var shown := at + WallClockOffset(zone, at);
            shown % 1000 == 0 && 0 <= at + zone(at) - shown < 1000
  {
  }

  lemma AsUtcExactly(day: int, hour: int, minute: int)
    ensures AsUtc(day, hour, minute) == 86_400_000 * day + 3_600_000 * hour + 60_000 * minute
  {
  }

  function Iterate(zone: Zone, desired: int, n: nat): int {
    if n == 0 then desired else Nudge(zone, desired, Iterate(zone, desired, n - 1))
  }

  lemma {:induction false} StaysPut(zone: Zone, desired: int, n: nat, m: nat)
    requires n <= m && Iterate(zone, desired, n + 1) == Iterate(zone, desired, n)
    ensures Iterate(zone, desired, m) == Iterate(zone, desired, n)
  {
    if n < m {
      StaysPut(zone, desired, n, m - 1);
    }
  }

  lemma ThreeIterations(zone: Zone, desired: int)
    ensures Iterate(zone, desired, 3) == WallTimeToUtc(zone, desired)
  {
    assert Iterate(zone, desired, 1) == Nudge(zone, desired, desired);
    assert Iterate(zone, desired, 2) == Nudge(zone, desired, Iterate(zone, desired, 1));
  }

  method ZonedWallTimeToUtc(zone: Zone, day: int, hour: int, minute: int) returns (utcMs: int)
    ensures utcMs == WallTimeToUtc(zone, AsUtc(day, hour, minute))
  {
    var desired := AsUtc(day, hour, minute);
    utcMs := desired;
    var i := 0;
    while i < 3
      invariant 0 <= i <= 3 && utcMs == Iterate(zone, desired, i)
    {
      var next := desired - WallClockOffset(zone, utcMs);
      if next == utcMs {
        StaysPut(zone, desired, i, 3);
        break;
      }
      utcMs := next;
      i := i + 1;
    }
    ThreeIterations(zone, desired);
  }

  lemma NudgeInSeconds(zone: Zone, desired: int, at: int)
    requires InWholeSeconds(zone) && desired % SECOND == 0 && at % SECOND == 0
    ensures Nudge(zone, desired, at) == desired - zone(at)
    ensures Nudge(zone, desired, at) % SECOND == 0
  {
    assert zone(at) % SECOND == 0;
  }

  /** Where at most two offsets are in force around the requested time, three rounds find every time clocks show. */
  lemma InvertsWhatIsShown(zone: Zone, desired: int, first: int, second: int, reach: int)
    requires InWholeSeconds(zone) && desired % SECOND == 0
    requires forall at :: -reach <= zone(at) <= reach
    requires forall at | desired - reach <= at <= desired + reach :: zone(at) == first || zone(at) == second
    ensures Shows(zone, WallTimeToUtc(zone, desired), desired) <==> exists at :: Shows(zone, at, desired)
  {
    var once := Nudge(zone, desired, desired);
    var twice := Nudge(zone, desired, once);
    NudgeInSeconds(zone, desired, desired);
    NudgeInSeconds(zone, desired, once);
    NudgeInSeconds(zone, desired, twice);
    if at :| Shows(zone, at, desired) {
      assert at == desired - zone(at);
      assert zone(at) == zone(desired) || zone(at) == zone(once) || zone(once) == zone(desired);
    }
  }

  /** In any zone, the result shows the requested time exactly when a fourth round would leave it where it is. */
  lemma ShownExactlyWhenSettled(zone: Zone, desired: int)
    requires InWholeSeconds(zone) && desired % SECOND == 0
    ensures Shows(zone, WallTimeToUtc(zone, desired), desired) <==>
              Iterate(zone, desired, 4) == Iterate(zone, desired, 3)
  {
    var once := Nudge(zone, desired, desired);
    var twice := Nudge(zone, desired, once);
    NudgeInSeconds(zone, desired, desired);
    NudgeInSeconds(zone, desired, once);
    NudgeInSeconds(zone, desired, twice);
    ThreeIterations(zone, desired);
    NudgeInSeconds(zone, desired, WallTimeToUtc(zone, desired));
  }

  /** Two offsets are needed: with a third one in reach, which no IANA zone has, three rounds can miss a time that
      clocks do show. */
  lemma ThirdOffsetCanBeMissed()
    ensures var zone: Zone := at =>
        if at < -2 * HOUR - HOUR / 2 then 3 * HOUR
        else if at < -HOUR - HOUR / 2 then HOUR
        else if at < -HOUR / 2 then 2 * HOUR
        else HOUR;
      InWholeSeconds(zone) && Shows(zone, -3 * HOUR, 0) && !Shows(zone, WallTimeToUtc(zone, 0), 0)
  {
  }

  // ---------- A zone with one change of offset ----------

  function OneChange(change: int, before: int, after: int): Zone {
    at => if at < change then before else after
  }

  function Min(a: int, b: int): int {
    if a < b then a else b
  }

  function Max(a: int, b: int): int {
    if a < b then b else a
  }

  function Spread(a: int, b: int): int {
    Max(a, b) - Min(a, b)
  }

  /** Neither skipped nor repeated by the change, or the very first such time in a zone west of Greenwich. */
  predicate ClearOf(change: int, before: int, after: int, wall: int) {
    var low, high := Min(before, after), Max(before, after);
    !(change + low <= wall < change + high) || (wall == change + low && low < 0)
  }

  /** The instants at which clocks show `wall` or later are those from `start` on. */
  ghost predicate Separates(zone: Zone, start: int, wall: int) {
    forall at :: wall <= WallClock(zone, at) <==> start <= at
  }

  lemma ThreeRounds(change: int, before: int, after: int, desired: int)
    requires before % SECOND == 0 && after % SECOND == 0 && desired % SECOND == 0
    ensures var zone := OneChange(change, before, after);
      WallTimeToUtc(zone, desired) == desired - zone(desired - zone(desired - zone(desired)))
  {
    var zone := OneChange(change, before, after);
    var once := Nudge(zone, desired, desired);
    NudgeInSeconds(zone, desired, desired);
    NudgeInSeconds(zone, desired, once);
    NudgeInSeconds(zone, desired, Nudge(zone, desired, once));
  }

  lemma ClearSeparates(change: int, before: int, after: int, wall: int, at: int)
    requires before % SECOND == 0 && after % SECOND == 0 && wall % SECOND == 0
    requires ClearOf(change, before, after, wall)
    ensures var zone := OneChange(change, before, after);
      wall <= WallClock(zone, at) <==> WallTimeToUtc(zone, wall) <= at
  {
    ThreeRounds(change, before, after, wall);
  }

  /** A skipped time is answered by an instant other than the change itself, a repeated one by either of two. */
  lemma Misplaced(change: int, before: int, after: int, wall: int) returns (at: int)
    requires before % SECOND == 0 && after % SECOND == 0 && wall % SECOND == 0
    requires !ClearOf(change, before, after, wall)
    ensures var zone := OneChange(change, before, after);
      !(wall <= WallClock(zone, at) <==> WallTimeToUtc(zone, wall) <= at)
      && -Spread(before, after) <= WallClock(zone, at) - wall <= Spread(before, after)
  {
    var start := WallTimeToUtc(OneChange(change, before, after), wall);
    ThreeRounds(change, before, after, wall);
    if before < after {
      at := if start < change then start else change;
    } else {
      at := if wall > change + after && start <= change then change else wall - before;
    }
  }

  /** The inverted wall time separates earlier from later instants exactly when it is clear of the change. */
  lemma SeparatesExactly(change: int, before: int, after: int, wall: int)
    requires before % SECOND == 0 && after % SECOND == 0 && wall % SECOND == 0
    ensures var zone := OneChange(change, before, after);
      Separates(zone, WallTimeToUtc(zone, wall), wall) <==> ClearOf(change, before, after, wall)
  {
    if ClearOf(change, before, after, wall) {
      forall at {
        ClearSeparates(change, before, after, wall, at);
      }
    } else {
      var at := Misplaced(change, before, after, wall);
    }
  }

  // ---------- Business days ----------

  predicate IsStartMinutes(value: int) {
    0 <= value < 1440
  }

  function LocalDay(zone: Zone, at: int): int {
    WallClock(zone, at) / DAY
  }

  function LocalMinutes(zone: Zone, at: int): int {
    WallClock(zone, at) % DAY / MINUTE
  }

  function BusinessDayKeyAt(zone: Zone, at: int, startMinutes: int): Checked<int> {
    if !IsStartMinutes(startMinutes) then RangeError
    else if LocalMinutes(zone, at) < startMinutes then Ok(LocalDay(zone, at) - 1)
    else Ok(LocalDay(zone, at))
  }

  /** Only minutes of a day are accepted. */
  lemma StartMinutesExactly(zone: Zone, at: int, day: int, startMinutes: int)
    ensures BusinessDayKeyAt(zone, at, startMinutes) == RangeError <==> startMinutes < 0 || startMinutes >= 24 * 60
    ensures BusinessDayBounds(zone, day, startMinutes) == RangeError <==> startMinutes < 0 || startMinutes >= 24 * 60
  {
  }

  datatype Bounds = Bounds(start: int, end: int)

  function BusinessDayStart(zone: Zone, day: int, startMinutes: int): int {
    WallTimeToUtc(zone, AsUtc(day, startMinutes / 60, startMinutes % 60))
  }

  function BusinessDayBounds(zone: Zone, day: int, startMinutes: int): Checked<Bounds> {
    if !IsStartMinutes(startMinutes) then RangeError
    else Ok(Bounds(BusinessDayStart(zone, day, startMinutes), BusinessDayStart(zone, day + 1, startMinutes)))
  }

  /** The wall time at which a business day begins. */
  function Opening(day: int, startMinutes: int): int {
    day * DAY + startMinutes * MINUTE
  }

  lemma OpeningInSeconds(day: int, startMinutes: int)
    ensures Opening(day, startMinutes) == AsUtc(day, startMinutes / 60, startMinutes % 60)
    ensures Opening(day, startMinutes) % SECOND == 0
  {
    assert Opening(day, startMinutes) == SECOND * (86400 * day + 60 * startMinutes);
  }

  lemma OpensAt(zone: Zone, day: int, startMinutes: int)
    ensures BusinessDayStart(zone, day, startMinutes) == WallTimeToUtc(zone, Opening(day, startMinutes))
  {
    OpeningInSeconds(day, startMinutes);
  }

  lemma NextOpening(day: int, startMinutes: int)
    ensures Opening(day, startMinutes) % SECOND == 0 && Opening(day + 1, startMinutes) % SECOND == 0
    ensures Opening(day + 1, startMinutes) == Opening(day, startMinutes) + DAY
  {
    OpeningInSeconds(day, startMinutes);
    OpeningInSeconds(day + 1, startMinutes);
  }

  /** The key names the day whose opening was the last one clocks showed. */
  lemma KeyIsLastOpening(zone: Zone, at: int, startMinutes: int, day: int)
    requires IsStartMinutes(startMinutes)
    ensures BusinessDayKeyAt(zone, at, startMinutes) == Ok(day) <==>
      Opening(day, startMinutes) <= WallClock(zone, at) < Opening(day + 1, startMinutes)
  {
    var wall := WallClock(zone, at);
    var rest := wall % DAY;
    assert wall == wall / DAY * DAY + rest;
    assert rest / MINUTE < startMinutes <==> rest < startMinutes * MINUTE;
  }

  /** An instant lies within the bounds of a business day exactly when its key names that day. */
  predicate HoldsItsKey(zone: Zone, startMinutes: int, day: int, at: int) {
    match BusinessDayBounds(zone, day, startMinutes)
    case RangeError => false
    case Ok(bounds) => BusinessDayKeyAt(zone, at, startMinutes) == Ok(day) <==> bounds.start <= at < bounds.end
  }

  /** When the bounds of a day separate the times before and after its openings, the day holds its keys. */
  lemma SeparatedDay(zone: Zone, startMinutes: int, day: int, start: int, end: int, at: int)
    requires IsStartMinutes(startMinutes) && BusinessDayBounds(zone, day, startMinutes) == Ok(Bounds(start, end))
    requires Opening(day, startMinutes) <= WallClock(zone, at) <==> start <= at
    requires Opening(day + 1, startMinutes) <= WallClock(zone, at) <==> end <= at
    ensures HoldsItsKey(zone, startMinutes, day, at)
  {
    KeyIsLastOpening(zone, at, startMinutes, day);
  }

  /** The inverted wall time tells this instant from those on its other side. */
  predicate SeparatedAt(zone: Zone, wall: int, at: int) {
    wall <= WallClock(zone, at) <==> WallTimeToUtc(zone, wall) <= at
  }

  /** An instant near the first opening that is on its wrong side is in the wrong day. */
  lemma FirstOpeningMisfiles(zone: Zone, startMinutes: int, day: int, at: int)
    requires IsStartMinutes(startMinutes) && -DAY < WallClock(zone, at) - Opening(day, startMinutes) < DAY
    requires !SeparatedAt(zone, Opening(day, startMinutes), at) && SeparatedAt(zone, Opening(day + 1, startMinutes), at)
    ensures !HoldsItsKey(zone, startMinutes, day, at)
  {
    NextOpening(day, startMinutes);
    KeyIsLastOpening(zone, at, startMinutes, day);
    OpensAt(zone, day, startMinutes);
    OpensAt(zone, day + 1, startMinutes);
  }

  lemma LastOpeningMisfiles(zone: Zone, startMinutes: int, day: int, at: int)
    requires IsStartMinutes(startMinutes) && -DAY < WallClock(zone, at) - Opening(day + 1, startMinutes) < DAY
    requires SeparatedAt(zone, Opening(day, startMinutes), at) && !SeparatedAt(zone, Opening(day + 1, startMinutes), at)
    ensures !HoldsItsKey(zone, startMinutes, day, at)
  {
    NextOpening(day, startMinutes);
    KeyIsLastOpening(zone, at, startMinutes, day);
    OpensAt(zone, day, startMinutes);
    OpensAt(zone, day + 1, startMinutes);
  }

  // ---------- Zones with any number of changes ----------

  /** From the instant `at` on, clocks are `after` ahead instead of `before`. */
  datatype Change = Change(at: int, before: int, after: int)

  function OffsetAt(first: int, changes: seq<Change>, at: int): int {
    if changes == [] then first
    else
      var last := changes[|changes| - 1];
      if last.at <= at then last.after else OffsetAt(first, changes[..|changes| - 1], at)
  }

  function Piecewise(first: int, changes: seq<Change>): Zone {
    at => OffsetAt(first, changes, at)
  }

  predicate Plausible(offset: int, reach: int) {
    offset % SECOND == 0 && -reach <= offset <= reach
  }

  predicate Moderate(c: Change, reach: int) {
    Plausible(c.before, reach) && Plausible(c.after, reach) && Spread(c.before, c.after) < DAY
  }

  /** Offsets are whole seconds within reach, no change moves clocks by a day, and changes lie far apart. */
  ghost predicate WellSeparated(first: int, changes: seq<Change>, reach: nat) {
    Plausible(first, reach) && (forall i | 0 <= i < |changes| :: Moderate(changes[i], reach))
    && (changes != [] ==> changes[0].before == first)
    && (forall i, j | 0 <= i < j < |changes| && j == i + 1 :: changes[j].before == changes[i].after)
    && forall i, j | 0 <= i < j < |changes| :: changes[j].at - changes[i].at > 2 * reach + DAY
  }

  predicate ClearOfChange(c: Change, wall: int) {
    ClearOf(c.at, c.before, c.after, wall)
  }

  ghost predicate ClearOfAll(changes: seq<Change>, wall: int) {
    forall i | 0 <= i < |changes| :: ClearOfChange(changes[i], wall)
  }

  lemma {:induction false} OffsetAtIs(first: int, changes: seq<Change>, at: int, k: nat)
    requires k <= |changes|
    requires forall i | 0 <= i < k :: changes[i].at <= at
    requires forall i | k <= i < |changes| :: at < changes[i].at
    ensures OffsetAt(first, changes, at) == if k == 0 then first else changes[k - 1].after
    decreases |changes|
  {
    if k < |changes| {
      OffsetAtIs(first, changes[..|changes| - 1], at, k);
    }
  }

  lemma {:induction false} OffsetIsPlausible(first: int, changes: seq<Change>, reach: nat, at: int)
    requires Plausible(first, reach) && forall i | 0 <= i < |changes| :: Moderate(changes[i], reach)
    ensures Plausible(OffsetAt(first, changes, at), reach)
  {
    if changes != [] && at < changes[|changes| - 1].at {
      OffsetIsPlausible(first, changes[..|changes| - 1], reach, at);
    }
  }

  /** Around a wall time, the zone is one with a single change. */
  ghost predicate Locally(zone: Zone, wall: int, reach: nat, change: int, before: int, after: int) {
    (forall at :: Plausible(zone(at), reach)) && Plausible(before, reach) && Plausible(after, reach)
    && forall at | wall - reach <= at <= wall + reach :: zone(at) == OneChange(change, before, after)(at)
  }

  lemma LocalRounds(zone: Zone, wall: int, reach: nat, change: int, before: int, after: int)
    requires Locally(zone, wall, reach, change, before, after) && wall % SECOND == 0
    ensures WallTimeToUtc(zone, wall) == WallTimeToUtc(OneChange(change, before, after), wall)
    ensures wall - reach <= WallTimeToUtc(zone, wall) <= wall + reach
  {
    ThreeRounds(change, before, after, wall);
    var once := Nudge(zone, wall, wall);
    var twice := Nudge(zone, wall, once);
    NudgeInSeconds(zone, wall, wall);
    NudgeInSeconds(zone, wall, once);
    NudgeInSeconds(zone, wall, twice);
  }

  lemma LocallySeparated(zone: Zone, wall: int, reach: nat, change: int, before: int, after: int, at: int)
    requires Locally(zone, wall, reach, change, before, after) && wall % SECOND == 0
    ensures SeparatedAt(zone, wall, at) <==> SeparatedAt(OneChange(change, before, after), wall, at)
    ensures !SeparatedAt(zone, wall, at) ==> WallClock(zone, at) == WallClock(OneChange(change, before, after), at)
  {
    LocalRounds(zone, wall, reach, change, before, after);
    assert Plausible(zone(at), reach);
  }

  /** A change whose instant is out of reach neither skips nor repeats the wall time. */
  lemma FarIsClear(c: Change, wall: int, reach: nat)
    requires Moderate(c, reach) && (c.at <= wall - reach || wall + reach < c.at)
    ensures ClearOfChange(c, wall)
  {
  }

  /** How many changes take effect up to a time. */
  function ChangesUpTo(changes: seq<Change>, at: int): (k: nat)
    ensures k <= |changes|
    ensures k < |changes| ==> at < changes[k].at
    ensures k > 0 ==> changes[k - 1].at <= at
  {
    if changes == [] || changes[|changes| - 1].at <= at then |changes| else ChangesUpTo(changes[..|changes| - 1], at)
  }

  /** The one change in reach of a wall time, or none: then any change from an offset to itself will do. */
  lemma NearestChange(first: int, changes: seq<Change>, reach: nat, wall: int) returns (c: Change)
    requires WellSeparated(first, changes, reach)
    ensures Moderate(c, reach) && Locally(Piecewise(first, changes), wall, reach, c.at, c.before, c.after)
    ensures ClearOfChange(c, wall) <==> ClearOfAll(changes, wall)
    ensures c in changes || c.before == c.after
  {
    var k := ChangesUpTo(changes, wall + reach);
    if k == 0 {
      c := Change(0, first, first);
      NoChangeNear(first, changes, reach, wall);
    } else {
      c := changes[k - 1];
      OneChangeNear(first, changes, reach, wall, k - 1, k);
    }
  }

  lemma NoChangeNear(first: int, changes: seq<Change>, reach: nat, wall: int)
    requires WellSeparated(first, changes, reach) && ChangesUpTo(changes, wall + reach) == 0
    ensures Locally(Piecewise(first, changes), wall, reach, 0, first, first) && ClearOfAll(changes, wall)
  {
    ZoneIsPlausible(first, changes, reach);
    forall i | 0 <= i < |changes| ensures wall + reach < changes[i].at {
      if i > 0 {
        assert changes[i].at - changes[0].at > 2 * reach + DAY;
      }
    }
    forall at | wall - reach <= at <= wall + reach ensures OffsetAt(first, changes, at) == first {
      OffsetAtIs(first, changes, at, 0);
    }
    forall i | 0 <= i < |changes| ensures ClearOfChange(changes[i], wall) {
      FarIsClear(changes[i], wall, reach);
    }
  }

  lemma OneChangeNear(first: int, changes: seq<Change>, reach: nat, wall: int, i: nat, k: nat)
    requires WellSeparated(first, changes, reach) && k == i + 1 && ChangesUpTo(changes, wall + reach) == k
    ensures Locally(Piecewise(first, changes), wall, reach, changes[i].at, changes[i].before, changes[i].after)
    ensures ClearOfChange(changes[i], wall) <==> ClearOfAll(changes, wall)
  {
    var c := changes[i];
    ZoneIsPlausible(first, changes, reach);
    forall j | 0 <= j < |changes| && j != i
      ensures if j < i then changes[j].at <= wall - reach else wall + reach < changes[j].at
    {
      OthersAreFar(changes, reach, wall, i, k, j);
    }
    forall at | wall - reach <= at <= wall + reach
      ensures OffsetAt(first, changes, at) == OneChange(c.at, c.before, c.after)(at)
    {
      OffsetAtIs(first, changes, at, if at < c.at then i else k);
    }
    forall j | 0 <= j < |changes| && j != i ensures ClearOfChange(changes[j], wall) {
      FarIsClear(changes[j], wall, reach);
    }
  }

  lemma OthersAreFar(changes: seq<Change>, reach: nat, wall: int, i: nat, k: nat, j: nat)
    requires forall i, j | 0 <= i < j < |changes| :: changes[j].at - changes[i].at > 2 * reach + DAY
    requires k == i + 1 <= |changes| && j < |changes| && j != i
    requires changes[i].at <= wall + reach && (k < |changes| ==> wall + reach < changes[k].at)
    ensures if j < i then changes[j].at <= wall - reach else wall + reach < changes[j].at
  {
    if j < i {
      assert changes[i].at - changes[j].at > 2 * reach + DAY;
    } else if j > k {
      assert changes[j].at - changes[k].at > 2 * reach + DAY;
    }
  }

  lemma ZoneIsPlausible(first: int, changes: seq<Change>, reach: nat)
    requires WellSeparated(first, changes, reach)
    ensures forall at :: Plausible(OffsetAt(first, changes, at), reach)
  {
    forall at ensures Plausible(OffsetAt(first, changes, at), reach) {
      OffsetIsPlausible(first, changes, reach, at);
    }
  }

  /** The inverted wall time separates earlier from later instants exactly when it is clear of every change. */
  lemma ZoneSeparatesExactly(first: int, changes: seq<Change>, reach: nat, wall: int)
    requires WellSeparated(first, changes, reach) && wall % SECOND == 0
    ensures (forall at :: SeparatedAt(Piecewise(first, changes), wall, at)) <==> ClearOfAll(changes, wall)
  {
    if ClearOfAll(changes, wall) {
      forall at ensures SeparatedAt(Piecewise(first, changes), wall, at) {
        ZoneSeparates(first, changes, reach, wall, at);
      }
    } else {
      var at := ZoneMisplaced(first, changes, reach, wall);
    }
  }

  lemma ZoneSeparates(first: int, changes: seq<Change>, reach: nat, wall: int, at: int)
    requires WellSeparated(first, changes, reach) && wall % SECOND == 0 && ClearOfAll(changes, wall)
    ensures SeparatedAt(Piecewise(first, changes), wall, at)
  {
    var c := NearestChange(first, changes, reach, wall);
    LocallySeparated(Piecewise(first, changes), wall, reach, c.at, c.before, c.after, at);
    ClearSeparates(c.at, c.before, c.after, wall, at);
  }

  lemma ZoneMisplaced(first: int, changes: seq<Change>, reach: nat, wall: int) returns (at: int)
    requires WellSeparated(first, changes, reach) && wall % SECOND == 0 && !ClearOfAll(changes, wall)
    ensures !SeparatedAt(Piecewise(first, changes), wall, at)
    ensures -DAY < WallClock(Piecewise(first, changes), at) - wall < DAY
  {
    var c := NearestChange(first, changes, reach, wall);
    at := Misplaced(c.at, c.before, c.after, wall);
    LocallySeparated(Piecewise(first, changes), wall, reach, c.at, c.before, c.after, at);
  }

  /** Two openings a day apart are not both unclear. */
  lemma OneOpeningIsClear(first: int, changes: seq<Change>, reach: nat, wall: int)
    requires WellSeparated(first, changes, reach) && !ClearOfAll(changes, wall)
    ensures ClearOfAll(changes, wall + DAY)
  {
    var i :| 0 <= i < |changes| && !ClearOfChange(changes[i], wall);
    forall j | 0 <= j < |changes| ensures ClearOfChange(changes[j], wall + DAY) {
      if i < j {
        assert changes[j].at - changes[i].at > 2 * reach + DAY;
      } else if j < i {
        assert changes[i].at - changes[j].at > 2 * reach + DAY;
      }
      UnclearTwice(changes[i], changes[j], wall, reach);
    }
  }

  lemma UnclearTwice(c: Change, d: Change, wall: int, reach: nat)
    requires Moderate(c, reach) && Moderate(d, reach) && !ClearOfChange(c, wall)
    requires c == d || d.at - c.at > 2 * reach + DAY || c.at - d.at > 2 * reach + DAY
    ensures ClearOfChange(d, wall + DAY)
  {
  }

  /** In a zone with any number of changes, keys and bounds agree on a business day exactly when both of its openings
      are clear of every change. */
  lemma ZoneDayHoldsItsKeysExactly(first: int, changes: seq<Change>, reach: nat, startMinutes: int, day: int)
    requires WellSeparated(first, changes, reach) && IsStartMinutes(startMinutes)
    ensures (forall at :: HoldsItsKey(Piecewise(first, changes), startMinutes, day, at)) <==>
      ClearOfAll(changes, Opening(day, startMinutes)) && ClearOfAll(changes, Opening(day + 1, startMinutes))
  {
    var zone := Piecewise(first, changes);
    NextOpening(day, startMinutes);
    if !ClearOfAll(changes, Opening(day, startMinutes)) {
      var at := ZoneMisplaced(first, changes, reach, Opening(day, startMinutes));
      OneOpeningIsClear(first, changes, reach, Opening(day, startMinutes));
      ZoneSeparates(first, changes, reach, Opening(day + 1, startMinutes), at);
      FirstOpeningMisfiles(zone, startMinutes, day, at);
    } else if !ClearOfAll(changes, Opening(day + 1, startMinutes)) {
      var at := ZoneMisplaced(first, changes, reach, Opening(day + 1, startMinutes));
      ZoneSeparates(first, changes, reach, Opening(day, startMinutes), at);
      LastOpeningMisfiles(zone, startMinutes, day, at);
    } else {
      forall at ensures HoldsItsKey(zone, startMinutes, day, at) {
        ZoneDayHoldsItsKeys(first, changes, reach, startMinutes, day, at);
      }
    }
  }

  lemma ZoneDayHoldsItsKeys(first: int, changes: seq<Change>, reach: nat, startMinutes: int, day: int, at: int)
    requires WellSeparated(first, changes, reach) && IsStartMinutes(startMinutes)
    requires ClearOfAll(changes, Opening(day, startMinutes))
    requires ClearOfAll(changes, Opening(day + 1, startMinutes))
    ensures HoldsItsKey(Piecewise(first, changes), startMinutes, day, at)
  {
    var zone := Piecewise(first, changes);
    NextOpening(day, startMinutes);
    OpensAt(zone, day, startMinutes);
    OpensAt(zone, day + 1, startMinutes);
    ZoneSeparates(first, changes, reach, Opening(day, startMinutes), at);
    ZoneSeparates(first, changes, reach, Opening(day + 1, startMinutes), at);
    SeparatedDay(zone, startMinutes, day, BusinessDayStart(zone, day, startMinutes),
      BusinessDayStart(zone, day + 1, startMinutes), at);
  }

  lemma ClearStartIsNear(change: int, before: int, after: int, wall: int)
    requires before % SECOND == 0 && after % SECOND == 0 && wall % SECOND == 0
    requires ClearOf(change, before, after, wall)
    ensures var zone := OneChange(change, before, after);
      WallClock(zone, WallTimeToUtc(zone, wall)) - wall <= Spread(before, after)
  {
    ThreeRounds(change, before, after, wall);
  }

  /** Days follow each other without gap or overlap, and none is empty. */
  lemma DaysAdvance(first: int, changes: seq<Change>, reach: nat, startMinutes: int, day: int)
    requires WellSeparated(first, changes, reach) && IsStartMinutes(startMinutes)
    requires ClearOfAll(changes, Opening(day, startMinutes))
    requires ClearOfAll(changes, Opening(day + 1, startMinutes))
    ensures var zone := Piecewise(first, changes);
      var today, next := BusinessDayBounds(zone, day, startMinutes), BusinessDayBounds(zone, day + 1, startMinutes);
      today.Ok? && next.Ok? && today.value.end == next.value.start && today.value.start < today.value.end
  {
    var zone, wall := Piecewise(first, changes), Opening(day, startMinutes);
    NextOpening(day, startMinutes);
    OpensAt(zone, day, startMinutes);
    OpensAt(zone, day + 1, startMinutes);
    var c := NearestChange(first, changes, reach, wall);
    LocalRounds(zone, wall, reach, c.at, c.before, c.after);
    ClearStartIsNear(c.at, c.before, c.after, wall);
    ZoneSeparates(first, changes, reach, Opening(day + 1, startMinutes), WallTimeToUtc(zone, wall));
  }

  predicate Untouched(change: int, before: int, after: int, wall: int) {
    !(change + Min(before, after) <= wall < change + Max(before, after))
  }

  ghost predicate UntouchedByAll(changes: seq<Change>, wall: int) {
    forall i | 0 <= i < |changes| :: Untouched(changes[i].at, changes[i].before, changes[i].after, wall)
  }

  lemma UntouchedIsShown(change: int, before: int, after: int, wall: int)
    requires before % SECOND == 0 && after % SECOND == 0 && wall % SECOND == 0
    requires Untouched(change, before, after, wall)
    ensures var zone := OneChange(change, before, after);
      Shows(zone, WallTimeToUtc(zone, wall), wall)
  {
    ThreeRounds(change, before, after, wall);
  }

  /** Clocks show a wall time that no change skips or repeats at the instant it is inverted to. */
  lemma ZoneShowsUntouched(first: int, changes: seq<Change>, reach: nat, wall: int)
    requires WellSeparated(first, changes, reach) && wall % SECOND == 0 && UntouchedByAll(changes, wall)
    ensures Shows(Piecewise(first, changes), WallTimeToUtc(Piecewise(first, changes), wall), wall)
    ensures ClearOfAll(changes, wall)
  {
    var c := NearestChange(first, changes, reach, wall);
    LocalRounds(Piecewise(first, changes), wall, reach, c.at, c.before, c.after);
    if c in changes {
      var i :| 0 <= i < |changes| && changes[i] == c;
      assert Untouched(c.at, c.before, c.after, wall);
    }
    UntouchedIsShown(c.at, c.before, c.after, wall);
  }

  /** How far clocks go forward, in all, after `start` and up to `end`. */
  function Forward(changes: seq<Change>, start: int, end: int): int {
    if changes == [] then 0
    else
      var last := changes[|changes| - 1];
      Forward(changes[..|changes| - 1], start, end) + if start < last.at <= end then last.after - last.before else 0
  }

  lemma {:induction false} NothingForward(changes: seq<Change>, start: int, end: int)
    requires forall i | 0 <= i < |changes| :: changes[i].at <= start
    ensures Forward(changes, start, end) == 0
  {
    if changes != [] {
      NothingForward(changes[..|changes| - 1], start, end);
    }
  }

  lemma {:induction false} OffsetGrows(first: int, changes: seq<Change>, reach: nat, start: int, end: int)
    requires WellSeparated(first, changes, reach) && start <= end
    ensures OffsetAt(first, changes, end) == OffsetAt(first, changes, start) + Forward(changes, start, end)
  {
    if changes != [] {
      var front, last := changes[..|changes| - 1], changes[|changes| - 1];
      assert forall i | 0 <= i < |front| :: last.at - front[i].at > 2 * reach + DAY;
      OffsetGrows(first, front, reach, start, end);
      if last.at <= start {
        NothingForward(front, start, end);
      } else if last.at <= end {
        OffsetAtIs(first, front, end, |front|);
      }
    }
  }

  /** In a zone with any number of changes, a day whose openings no change skips or repeats is 24 hours long, less what
      clocks go forward in it, or plus what they go back: 23 or 25 hours. */
  lemma DayLength(first: int, changes: seq<Change>, reach: nat, startMinutes: int, day: int)
    requires WellSeparated(first, changes, reach) && IsStartMinutes(startMinutes)
    requires UntouchedByAll(changes, Opening(day, startMinutes))
    requires UntouchedByAll(changes, Opening(day + 1, startMinutes))
    ensures var zone := Piecewise(first, changes);
      var start, end := BusinessDayStart(zone, day, startMinutes), BusinessDayStart(zone, day + 1, startMinutes);
      end - start == DAY - Forward(changes, start, end)
  {
    var zone := Piecewise(first, changes);
    NextOpening(day, startMinutes);
    OpensAt(zone, day, startMinutes);
    OpensAt(zone, day + 1, startMinutes);
    ZoneShowsUntouched(first, changes, reach, Opening(day, startMinutes));
    ZoneShowsUntouched(first, changes, reach, Opening(day + 1, startMinutes));
    DaysAdvance(first, changes, reach, startMinutes, day);
    OffsetGrows(first, changes, reach, BusinessDayStart(zone, day, startMinutes),
      BusinessDayStart(zone, day + 1, startMinutes));
  }

  // ---------- Calendar days ----------

  datatype DayBounds = DayBounds(dayStart: int, dayEnd: int)

  /** The first and last millisecond of a venue calendar day. */
  function DayBoundsInTimeZone(zone: Zone, day: int): DayBounds {
    DayBounds(WallTimeToUtc(zone, AsUtc(day, 0, 0)), WallTimeToUtc(zone, AsUtc(day + 1, 0, 0)) - 1)
  }

  /** The inclusive bounds hold exactly the instants whose local date is that day. */
  lemma CalendarDayHoldsItsDates(first: int, changes: seq<Change>, reach: nat, day: int, at: int)
    requires WellSeparated(first, changes, reach)
    requires ClearOfAll(changes, AsUtc(day, 0, 0)) && ClearOfAll(changes, AsUtc(day + 1, 0, 0))
    ensures var zone := Piecewise(first, changes);
      var bounds := DayBoundsInTimeZone(zone, day);
      LocalDay(zone, at) == day <==> bounds.dayStart <= at <= bounds.dayEnd
  {
    var zone := Piecewise(first, changes);
    NextOpening(day, 0);
    OpensAt(zone, day, 0);
    OpensAt(zone, day + 1, 0);
    ZoneSeparates(first, changes, reach, Opening(day, 0), at);
    ZoneSeparates(first, changes, reach, Opening(day + 1, 0), at);
    DateOf(WallClock(zone, at), day);
  }

  lemma DateOf(wall: int, day: int)
    ensures wall / DAY == day <==> AsUtc(day, 0, 0) <= wall < AsUtc(day + 1, 0, 0)
  {
    assert wall == wall / DAY * DAY + wall % DAY;
  }

  /** East of Greenwich, a night that skips midnight gives the new day the last hour of the old one. */
  lemma SkippedMidnight()
    ensures var zone := OneChange(-2 * HOUR, 2 * HOUR, 3 * HOUR);
      DayBoundsInTimeZone(zone, 0).dayStart == -3 * HOUR
      && forall at | -3 * HOUR <= at < -2 * HOUR :: LocalDay(zone, at) == -1
  {
    var zone := OneChange(-2 * HOUR, 2 * HOUR, 3 * HOUR);
    ThreeRounds(-2 * HOUR, 2 * HOUR, 3 * HOUR, 0);
    forall at | -3 * HOUR <= at < -2 * HOUR ensures LocalDay(zone, at) == -1 {
      DateOf(WallClock(zone, at), -1);
    }
  }
}
