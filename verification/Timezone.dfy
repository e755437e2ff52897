/** Clock schedules in a named zone (server/timezone.ts).

    `Intl` is replaced by the zone's offset table: a function from epoch seconds to
    the offset in force, in seconds.  Instants are epoch milliseconds; a wall clock is
    re-encoded, as in the source, as the UTC epoch of the same calendar fields. */
module Timezone {

  const HOUR := 3_600_000
  const HALF_HOUR := 1_800_000
  const DAY := 86_400_000
  const DAY_SECONDS := 86_400
  // No zone has ever been further than 16 hours from UTC.
  const MAX_OFFSET := 57_600
  const TWO_DAYS := 172_800
  // Everything the search looks at lies this many seconds around the wall time.
  const REACH := 80_000

  /** Offset from UTC, in seconds, at every epoch second. */
  type Zone = int -> int

  /** The offset changes at second `t`. */
  ghost predicate Changes(zone: Zone, t: int) {
    zone(t) != zone(t - 1)
  }

  /** What is assumed of a zone: bounded offsets, changes more than two days apart. */
  ghost predicate Regular(zone: Zone) {
    && (forall s :: -MAX_OFFSET <= zone(s) <= MAX_OFFSET)
    && (forall s, t :: Changes(zone, s) && Changes(zone, t) && s < t ==> t - s > TWO_DAYS)
  }

  function WallSecond(zone: Zone, s: int): int {
    s + zone(s)
  }

  /** The zone's wall clock at `ms`, truncated to the second. */
  function WallAsUtc(zone: Zone, ms: int): int {
    WallSecond(zone, ms / 1000) * 1000
  }

  /** `ms` is the least instant whose wall clock is at or past `desired`: the exact instant
      of an ordinary wall time, the earlier of two repeated ones, the first after a gap. */
  ghost predicate IsEarliest(zone: Zone, desired: int, ms: int) {
    && WallAsUtc(zone, ms) >= desired
    && forall u :: u < ms ==> WallAsUtc(zone, u) < desired
  }

  ghost predicate IsEarliestSecond(zone: Zone, d: int, q: int) {
    && WallSecond(zone, q) >= d
    && forall s :: s < q ==> WallSecond(zone, s) < d
  }

  /** `d` is a wall second the zone reads twice around the change at `t`. */
  ghost predicate RepeatedAt(zone: Zone, d: int, t: int) {
    Changes(zone, t) && t + zone(t) <= d < t + zone(t - 1)
  }

  /** `d` is a wall second the change at `t` skips. */
  ghost predicate SkippedAt(zone: Zone, d: int, t: int) {
    Changes(zone, t) && t + zone(t - 1) <= d < t + zone(t)
  }

  /** A repeated wall time whose two readings differ by neither 30 nor 60 minutes and which, read
      as UTC, is not before the change: there the two offset guesses settle on the later
      reading. */
  ghost predicate UnprobedAt(zone: Zone, d: int, t: int) {
    && RepeatedAt(zone, d, t)
    && t <= d
    && zone(t - 1) - zone(t) != 1800
    && zone(t - 1) - zone(t) != 3600
  }

  ghost predicate UnprobedRepeat(zone: Zone, d: int) {
    exists t :: UnprobedAt(zone, d, t)
  }

  /** Every fall-back is one of the two the code probes for. */
  ghost predicate ProbedZone(zone: Zone) {
    forall t {:trigger Changes(zone, t)} :: Changes(zone, t) && zone(t) < zone(t - 1) ==>
      zone(t - 1) - zone(t) == 1800 || zone(t - 1) - zone(t) == 3600
  }

  // ----- the shape of a regular zone around one wall time -----

  lemma {:induction false} AtMostOneChange(zone: Zone, a: int, b: int) returns (t: int)
    requires Regular(zone) && a <= b <= a + TWO_DAYS
    ensures a < t <= b + 1
    ensures forall s :: a <= s < t ==> zone(s) == zone(a)
    ensures forall s :: t <= s <= b ==> zone(s) == zone(b)
    ensures t <= b ==> Changes(zone, t)
    decreases b - a
  {
    if a == b {
      t := a + 1;
    } else {
      t := AtMostOneChange(zone, a, b - 1);
      if Changes(zone, b) {
        t := b;
      } else if t == b {
        t := b + 1;
      }
    }
  }

  /** Within REACH of `d` the offset is `before` until `t` and `after` from then on. */
  ghost predicate Around(zone: Zone, d: int, t: int, before: int, after: int) {
    && d - REACH < t <= d + REACH + 1
    && (forall s :: d - REACH <= s <= d + REACH ==> zone(s) == if s < t then before else after)
    && (t <= d + REACH ==> Changes(zone, t))
    && (t == d + REACH + 1 ==> before == after)
    && -MAX_OFFSET <= before <= MAX_OFFSET
    && -MAX_OFFSET <= after <= MAX_OFFSET
  }

  lemma Shape(zone: Zone, d: int) returns (t: int, before: int, after: int)
    requires Regular(zone)
    ensures Around(zone, d, t, before, after)
  {
    t := AtMostOneChange(zone, d - REACH, d + REACH);
    before := zone(d - REACH);
    after := zone(d + REACH);
    assert t == d + REACH + 1 ==> zone(d + REACH) == before;
  }

  lemma SecondsSuffice(zone: Zone, d: int, q: int)
    ensures IsEarliest(zone, d * 1000, q * 1000) <==> IsEarliestSecond(zone, d, q)
  {
    if IsEarliestSecond(zone, d, q) {
      forall u | u < q * 1000 ensures WallAsUtc(zone, u) < d * 1000 {
        assert u / 1000 < q;
        assert WallSecond(zone, u / 1000) < d;
      }
    }
    if IsEarliest(zone, d * 1000, q * 1000) {
      forall s | s < q ensures WallSecond(zone, s) < d {
        assert WallAsUtc(zone, s * 1000) < d * 1000;
      }
    }
  }

  lemma EarliestUnique(zone: Zone, desired: int, x: int, y: int)
    requires IsEarliest(zone, desired, x) && IsEarliest(zone, desired, y)
    ensures x == y
  {
    assert !(x < y) && !(y < x);
  }

  lemma EarliestExists(zone: Zone, d: int) returns (q: int)
    requires Regular(zone)
    ensures d - MAX_OFFSET <= q <= d + MAX_OFFSET
    ensures IsEarliest(zone, d * 1000, q * 1000)
  {
    var t, before, after := Shape(zone, d);
    q := if d - before < t then d - before else if d - after < t then t else d - after;
  }

  /** The earliest reading is exact unless a change skips the wall time, and then it is the
      first instant after the gap. */
  lemma ExactOrAfterGap(zone: Zone, d: int, q: int)
    requires Regular(zone) && IsEarliest(zone, d * 1000, q * 1000)
    ensures WallSecond(zone, q) == d <==> !(exists t :: SkippedAt(zone, d, t))
    ensures forall t :: SkippedAt(zone, d, t) ==> q == t
  {
    SecondsSuffice(zone, d, q);
    assert WallSecond(zone, q - 1) < d;
    if WallSecond(zone, q) != d { assert SkippedAt(zone, d, q); }
    forall t | SkippedAt(zone, d, t) ensures q == t && WallSecond(zone, q) != d {
      SkipHits(zone, d, t);
      SecondsSuffice(zone, d, t);
      EarliestUnique(zone, d * 1000, q * 1000, t * 1000);
    }
  }

  // ----- zonedEpoch -----

  /** The wall time `hour:minute` of calendar day `day` (days since 1970-01-01), as UTC. */
  function Desired(day: int, hour: int, minute: int): int {
    1000 * DesiredSecond(day, hour, minute)
  }

  function DesiredSecond(day: int, hour: int, minute: int): int {
    day * DAY_SECONDS + hour * 3600 + minute * 60
  }

  /** What the search returns: the earliest reading, except that an unprobed repeat runs at
      its later reading, the one on the new offset. */
  ghost predicate Resolves(zone: Zone, d: int, r: int) {
    if UnprobedRepeat(zone, d) then
      exists t :: UnprobedAt(zone, d, t) && r == (d - zone(t)) * 1000
    else
      IsEarliest(zone, d * 1000, r)
  }

  lemma ResolvesOnce(zone: Zone, d: int, x: int, y: int)
    requires Regular(zone) && Resolves(zone, d, x) && Resolves(zone, d, y)
    ensures x == y
  {
    if UnprobedRepeat(zone, d) {
      var t, before, after := Shape(zone, d);
      assert forall u :: UnprobedAt(zone, d, u) ==> u == t;
    } else {
      EarliestUnique(zone, d * 1000, x, y);
    }
  }

  /** The header of the file promises the earliest reading; the promise is kept exactly
      outside unprobed repeats, and there a second, earlier reading exists. */
  lemma EarliestUnlessUnprobed(zone: Zone, d: int, r: int) returns (e: int)
    requires Regular(zone) && Resolves(zone, d, r)
    ensures IsEarliest(zone, d * 1000, r) <==> !UnprobedRepeat(zone, d)
    ensures UnprobedRepeat(zone, d) ==>
              WallAsUtc(zone, r) == d * 1000 == WallAsUtc(zone, e) && e < r && IsEarliest(zone, d * 1000, e)
  {
    e := r;
    if UnprobedRepeat(zone, d) {
      var u :| UnprobedAt(zone, d, u) && r == (d - zone(u)) * 1000;
      e := (d - zone(u - 1)) * 1000;
      UnprobedReadings(zone, d, u);
      assert e < r;
    }
  }

  lemma UnprobedReadings(zone: Zone, d: int, u: int)
    requires Regular(zone) && RepeatedAt(zone, d, u) && u <= d
    ensures WallAsUtc(zone, (d - zone(u)) * 1000) == d * 1000
    ensures IsEarliest(zone, d * 1000, (d - zone(u - 1)) * 1000)
    ensures WallAsUtc(zone, (d - zone(u - 1)) * 1000) == d * 1000
  {
    var t, before, after := Shape(zone, d);
  }

  predicate ClockTime(hour: int, minute: int) {
    0 <= hour < 24 && 0 <= minute < 60
  }

  /** Calendar date of an instant on the zone's wall clock. */
  function WallDay(zone: Zone, ms: int): int {
    WallAsUtc(zone, ms) / DAY
  }

  /** The wall clock at `ms` shows that date, hour and minute, on the minute. */
  predicate Shows(zone: Zone, ms: int, day: int, hour: int, minute: int) {
    var wall := WallAsUtc(zone, ms);
    && WallDay(zone, ms) == day && wall / (60 * 60 * 1000) % 24 == hour && wall / (60 * 1000) % 60 == minute
    && wall % (60 * 1000) == 0
  }

  lemma FieldsOfMinutes(n: int, day: int, hour: int, minute: int)
    requires ClockTime(hour, minute) && n == day * 1440 + hour * 60 + minute
    ensures n / 1440 == day && n / 60 % 24 == hour && n % 60 == minute
  {
    assert n / 60 == day * 24 + hour;
  }

  /** A wall clock that reads the desired second shows the date and time asked for. */
  lemma DesiredShows(zone: Zone, ms: int, day: int, hour: int, minute: int)
    requires ClockTime(hour, minute)
    ensures WallAsUtc(zone, ms) == Desired(day, hour, minute) <==> Shows(zone, ms, day, hour, minute)
  {
    var wall, n := WallAsUtc(zone, ms), day * 1440 + hour * 60 + minute;
    FieldsOfMinutes(n, day, hour, minute);
    assert Desired(day, hour, minute) == n * 60_000;
    if wall == n * 60_000 { OnTheMinute(wall, n); }
    if Shows(zone, ms, day, hour, minute) {
      OnTheMinute(wall, wall / 60_000);
      MinutesOfFields(wall / 60_000, day, hour, minute);
    }
  }

  lemma OnTheMinute(wall: int, m: int)
    requires wall == m * 60_000
    ensures wall / 86_400_000 == m / 1440 && wall / 3_600_000 == m / 60
    ensures wall / 60_000 == m && wall % 60_000 == 0
  {
  }

  lemma MinutesOfFields(m: int, day: int, hour: int, minute: int)
    requires m / 1440 == day && m / 60 % 24 == hour && m % 60 == minute
    ensures m == day * 1440 + hour * 60 + minute
  {
    assert m / 60 / 24 == m / 1440;
  }

  /** Unless a change skips the time, the answer shows the date, the hour and the minute. */
  lemma ResolvedShows(zone: Zone, day: int, hour: int, minute: int, r: int)
    requires Regular(zone) && ClockTime(hour, minute) && Resolves(zone, DesiredSecond(day, hour, minute), r)
    ensures Shows(zone, r, day, hour, minute) <==> !(exists t :: SkippedAt(zone, DesiredSecond(day, hour, minute), t))
  {
    var d := DesiredSecond(day, hour, minute);
    DesiredShows(zone, r, day, hour, minute);
    var e := EarliestUnlessUnprobed(zone, d, r);
    if UnprobedRepeat(zone, d) {
      UnprobedNotSkipped(zone, d);
    } else {
      var q := EarliestExists(zone, d);
      EarliestUnique(zone, d * 1000, q * 1000, r);
      ExactOrAfterGap(zone, d, q);
    }
  }

  lemma SameChange(zone: Zone, t: int, u: int)
    requires Regular(zone) && Changes(zone, t) && Changes(zone, u) && t - TWO_DAYS <= u <= t + TWO_DAYS
    ensures t == u
  {
  }

  lemma UnprobedNotSkipped(zone: Zone, d: int)
    requires Regular(zone) && UnprobedRepeat(zone, d)
    ensures !(exists t :: SkippedAt(zone, d, t))
  {
    var u :| UnprobedAt(zone, d, u);
    forall t ensures !SkippedAt(zone, d, t) {
      if SkippedAt(zone, d, t) { SameChange(zone, t, u); }
    }
  }

  method ZonedEpoch(zone: Zone, day: int, hour: int, minute: int) returns (r: int)
    requires Regular(zone)
    ensures Resolves(zone, DesiredSecond(day, hour, minute), r)
    ensures 0 <= hour < 24 && 0 <= minute < 60 ==>
              (Shows(zone, r, day, hour, minute) <==>
                !(exists t :: SkippedAt(zone, DesiredSecond(day, hour, minute), t)))
  {
    r := SearchEpoch(zone, day, hour, minute);
    if ClockTime(hour, minute) { ResolvedShows(zone, day, hour, minute, r); }
  }

  /** The guesses, the probes and the search. */
  method SearchEpoch(zone: Zone, day: int, hour: int, minute: int) returns (r: int)
    requires Regular(zone)
    ensures Resolves(zone, DesiredSecond(day, hour, minute), r)
  {
    var desired := Desired(day, hour, minute);
    var c1 := desired - (WallAsUtc(zone, desired) - desired);
    var c2 := desired - (WallAsUtc(zone, c1) - c1);
    ghost var d := DesiredSecond(day, hour, minute);
    Guesses(zone, d, desired, c1, c2);
    if WallAsUtc(zone, c2) == desired {
      if WallAsUtc(zone, c2 - HOUR) == desired {
        Twin(zone, d, 3600);
        return c2 - HOUR;
      }
      if WallAsUtc(zone, c2 - HALF_HOUR) == desired {
        Twin(zone, d, 1800);
        return c2 - HALF_HOUR;
      }
      NoTwin(zone, d);
      return c2;
    }
    GapStraddled(zone, d);
    r := FirstAtOrPast(zone, desired, if c1 < c2 then c1 else c2, if c1 < c2 then c2 else c1);
    GapEnd(zone, d, r);
  }

  /** The second the two offset guesses settle on. */
  function Guess(zone: Zone, d: int): int {
    d - zone(d - zone(d))
  }

  /** The guesses and probes, in milliseconds, are whole seconds. */
  lemma Guesses(zone: Zone, d: int, desired: int, c1: int, c2: int)
    requires desired == d * 1000
    requires c1 == desired - (WallAsUtc(zone, desired) - desired)
    requires c2 == desired - (WallAsUtc(zone, c1) - c1)
    ensures c1 == (d - zone(d)) * 1000
    ensures var q := Guess(zone, d);
            && c2 == q * 1000
            && WallAsUtc(zone, c1) == WallSecond(zone, d - zone(d)) * 1000
            && WallAsUtc(zone, c2) == WallSecond(zone, q) * 1000
            && WallAsUtc(zone, c2 - HOUR) == WallSecond(zone, q - 3600) * 1000
            && WallAsUtc(zone, c2 - HALF_HOUR) == WallSecond(zone, q - 1800) * 1000
  {
    assert desired / 1000 == d;
    assert c1 == (d - zone(d)) * 1000;
    assert c1 / 1000 == d - zone(d);
  }

  /** The binary search: between an instant before the wall time and one at or past it,
      a millisecond at which the wall clock steps over it. */
  method FirstAtOrPast(zone: Zone, desired: int, low: int, high: int) returns (r: int)
    requires low < high && WallAsUtc(zone, low) < desired <= WallAsUtc(zone, high)
    ensures low < r <= high && WallAsUtc(zone, r - 1) < desired <= WallAsUtc(zone, r)
  {
    var lo, hi := low, high;
    while hi - lo > 1
      invariant low <= lo < hi <= high
      invariant WallAsUtc(zone, lo) < desired <= WallAsUtc(zone, hi)
    {
      var mid := lo + (hi - lo) / 2;
      if WallAsUtc(zone, mid) >= desired { hi := mid; } else { lo := mid; }
    }
    return hi;
  }

  /** A probe that reads the wall time again has found the earlier of two readings. */
  lemma Twin(zone: Zone, d: int, delta: int)
    requires Regular(zone) && WallSecond(zone, Guess(zone, d)) == d
    requires delta == 1800 || delta == 3600
    requires WallSecond(zone, Guess(zone, d) - delta) == d
    ensures Resolves(zone, d, (Guess(zone, d) - delta) * 1000)
  {
    var t, before, after := Shape(zone, d);
    var q := Guess(zone, d);
    assert q - delta < t <= q && before - after == delta;
  }

  /** When neither probe hits, the guess is the earliest reading unless the repeat is unprobed. */
  lemma NoTwin(zone: Zone, d: int)
    requires Regular(zone) && WallSecond(zone, Guess(zone, d)) == d
    requires WallSecond(zone, Guess(zone, d) - 3600) != d && WallSecond(zone, Guess(zone, d) - 1800) != d
    ensures Resolves(zone, d, Guess(zone, d) * 1000)
  {
    var t, before, after := Shape(zone, d);
    var unprobed := UnprobedAt(zone, d, t);
  }

  /** When the guess misses, the wall time is skipped and the guesses straddle the change. */
  lemma GapStraddled(zone: Zone, d: int)
    requires Regular(zone) && WallSecond(zone, Guess(zone, d)) != d
    ensures var a, b := d - zone(d), Guess(zone, d);
            if a < b then WallSecond(zone, a) < d < WallSecond(zone, b)
            else b < a && WallSecond(zone, b) < d <= WallSecond(zone, a)
  {
    var t, before, after := Shape(zone, d);
  }

  lemma GapEnd(zone: Zone, d: int, r: int)
    requires Regular(zone) && WallSecond(zone, Guess(zone, d)) != d
    requires var a, b := (d - zone(d)) * 1000, Guess(zone, d) * 1000;
             (a < r <= b || b < r <= a)
    requires WallAsUtc(zone, r - 1) < d * 1000 <= WallAsUtc(zone, r)
    ensures Resolves(zone, d, r)
  {
    var t, before, after := Shape(zone, d);
    assert d - after < t <= d - before;
    assert (r - 1) / 1000 < t <= r / 1000;
    assert r == t * 1000;
  }

  // ----- the calendar of one schedule -----

  /** Sunday is 0; 1970-01-01 was a Thursday. */
  function DayOfWeek(day: int): int {
    (day + 4) % 7
  }

  predicate Eligible(weekdaysOnly: bool, day: int) {
    !(weekdaysOnly && (DayOfWeek(day) == 0 || DayOfWeek(day) == 6))
  }

  /** Day number of 6 January 2024, a Saturday. */
  const A_SATURDAY := 19728

  /** Weekday schedules run on the five days between weekends. */
  lemma WeekendsAreLeftOut(day: int)
    ensures Eligible(true, day) <==> (day - A_SATURDAY) % 7 >= 2
    ensures Eligible(false, day)
  {
  }

  /** The instant the schedule means on one calendar date. */
  ghost function Fires(zone: Zone, hour: int, minute: int, day: int): int
    requires Regular(zone)
  {
    HasEarliest(zone, day, hour, minute);
    var ms :| IsEarliest(zone, Desired(day, hour, minute), ms);
    ms
  }

  lemma HasEarliest(zone: Zone, day: int, hour: int, minute: int)
    requires Regular(zone)
    ensures exists ms :: IsEarliest(zone, Desired(day, hour, minute), ms)
  {
    var d := DesiredSecond(day, hour, minute);
    var q := EarliestExists(zone, d);
    assert IsEarliest(zone, Desired(day, hour, minute), q * 1000);
  }

  /** `day` is the least eligible date whose instant lies strictly after `from`. */
  ghost predicate IsNextDate(zone: Zone, hour: int, minute: int, weekdaysOnly: bool, from: int, day: int)
    requires Regular(zone)
  {
    && Eligible(weekdaysOnly, day)
    && Fires(zone, hour, minute, day) > from
    && forall k :: Eligible(weekdaysOnly, k) && Fires(zone, hour, minute, k) > from ==> day <= k
  }

  lemma FiresMonotone(zone: Zone, hour: int, minute: int, j: int, k: int)
    requires Regular(zone) && j <= k
    ensures Fires(zone, hour, minute, j) <= Fires(zone, hour, minute, k)
  {
    var x, y := Fires(zone, hour, minute, j), Fires(zone, hour, minute, k);
    assert Desired(j, hour, minute) <= Desired(k, hour, minute);
    assert !(y < x);
  }

  /** Dates before the one `from` falls on are over. */
  lemma EarlierDatesPast(zone: Zone, hour: int, minute: int, from: int, day: int)
    requires Regular(zone) && ClockTime(hour, minute) && day < WallDay(zone, from)
    ensures Fires(zone, hour, minute, day) <= from
  {
    assert Desired(day, hour, minute) < WallDay(zone, from) * DAY <= WallAsUtc(zone, from);
  }

  /** Three dates on, no reading can have come before `from`, whatever the zone does. */
  lemma ThreeDaysOn(zone: Zone, hour: int, minute: int, from: int, day: int, r: int)
    requires Regular(zone) && ClockTime(hour, minute) && day >= WallDay(zone, from) + 3
    requires WallAsUtc(zone, r) >= Desired(day, hour, minute)
    ensures r > from
  {
    assert -MAX_OFFSET <= zone(r / 1000) <= MAX_OFFSET && -MAX_OFFSET <= zone(from / 1000) <= MAX_OFFSET;
    assert WallAsUtc(zone, from) < (WallDay(zone, from) + 1) * DAY;
  }

  /** The instant at which the code runs the schedule on one calendar date. */
  ghost function Runs(zone: Zone, hour: int, minute: int, day: int): (r: int)
    requires Regular(zone)
    ensures Resolves(zone, DesiredSecond(day, hour, minute), r)
  {
    SomeResolution(zone, DesiredSecond(day, hour, minute));
    var r :| Resolves(zone, DesiredSecond(day, hour, minute), r);
    r
  }

  lemma SomeResolution(zone: Zone, d: int)
    requires Regular(zone)
    ensures exists r :: Resolves(zone, d, r)
  {
    if UnprobedRepeat(zone, d) {
      var t :| UnprobedAt(zone, d, t);
      assert Resolves(zone, d, (d - zone(t)) * 1000);
    } else {
      var q := EarliestExists(zone, d);
      assert Resolves(zone, d, q * 1000);
    }
  }

  ghost predicate AllOver(zone: Zone, hour: int, minute: int, weekdaysOnly: bool, from: int, a: int, b: int)
    requires Regular(zone)
  {
    forall k :: a <= k < b && Eligible(weekdaysOnly, k) ==> Runs(zone, hour, minute, k) <= from
  }

  /** The first eligible date, from the one `from` falls on, that runs after `from`. */
  ghost predicate NextRun(zone: Zone, hour: int, minute: int, weekdaysOnly: bool, from: int, day: int)
    requires Regular(zone)
  {
    && Eligible(weekdaysOnly, day) && WallDay(zone, from) <= day && Runs(zone, hour, minute, day) > from
    && AllOver(zone, hour, minute, weekdaysOnly, from, WallDay(zone, from), day)
  }

  lemma OneMoreOver(zone: Zone, hour: int, minute: int, weekdaysOnly: bool, from: int, a: int, b: int)
    requires Regular(zone) && AllOver(zone, hour, minute, weekdaysOnly, from, a, b)
    requires Eligible(weekdaysOnly, b) ==> Runs(zone, hour, minute, b) <= from
    ensures AllOver(zone, hour, minute, weekdaysOnly, from, a, b + 1)
  {
  }

  lemma ProbedRuns(zone: Zone, hour: int, minute: int, day: int)
    requires Regular(zone) && ProbedZone(zone)
    ensures Runs(zone, hour, minute, day) == Fires(zone, hour, minute, day)
  {
    HasEarliest(zone, day, hour, minute);
    var d := DesiredSecond(day, hour, minute);
    EarliestUnique(zone, d * 1000, Runs(zone, hour, minute, day), Fires(zone, hour, minute, day));
  }

  lemma FirstIsNext(zone: Zone, hour: int, minute: int, weekdaysOnly: bool, from: int, day: int)
    requires Regular(zone) && ProbedZone(zone) && ClockTime(hour, minute)
    requires NextRun(zone, hour, minute, weekdaysOnly, from, day)
    ensures IsNextDate(zone, hour, minute, weekdaysOnly, from, day)
  {
    ProbedRuns(zone, hour, minute, day);
    forall k | Eligible(weekdaysOnly, k) && Fires(zone, hour, minute, k) > from ensures day <= k {
      ProbedRuns(zone, hour, minute, k);
      if k < WallDay(zone, from) { EarlierDatesPast(zone, hour, minute, from, k); }
    }
  }

  /** The nine-day loop.  It always returns before running out of days, at the first eligible
      date from the one `from` falls on whose search ends after `from`; in a zone whose
      fall-backs are the probed ones that is the least eligible date's instant. */
  method ZonedNextClockRun(zone: Zone, hour: int, minute: int, weekdaysOnly: bool, from: int)
    returns (r: int, ghost day: int)
    requires Regular(zone) && ClockTime(hour, minute)
    ensures r > from
    ensures NextRun(zone, hour, minute, weekdaysOnly, from, day) && r == Runs(zone, hour, minute, day)
    ensures weekdaysOnly ==> (day - A_SATURDAY) % 7 >= 2
    ensures forall k :: WallDay(zone, from) <= k < day ==>
              (weekdaysOnly && (k - A_SATURDAY) % 7 < 2) || Runs(zone, hour, minute, k) <= from
    ensures ProbedZone(zone) ==>
              IsNextDate(zone, hour, minute, weekdaysOnly, from, day) && r == Fires(zone, hour, minute, day)
  {
    hide Shows, IsNextDate, Regular, ProbedZone, SkippedAt;
    var start := WallDay(zone, from);
    for i := 0 to 9
      invariant forall k :: start + 3 <= k < start + i ==> !Eligible(weekdaysOnly, k)
      invariant AllOver(zone, hour, minute, weekdaysOnly, from, start, start + i)
    {
      var date := start + i;
      day := date;
      var dow := DayOfWeek(date);
      if weekdaysOnly && (dow == 0 || dow == 6) {
        OneMoreOver(zone, hour, minute, weekdaysOnly, from, start, date);
        continue;
      }
      r := ZonedEpoch(zone, date, hour, minute);
      Candidate(zone, hour, minute, from, date, r);
      if r > from {
        PassedOver(zone, hour, minute, weekdaysOnly, from, date);
        if ProbedZone(zone) {
          FirstIsNext(zone, hour, minute, weekdaysOnly, from, date);
          ProbedRuns(zone, hour, minute, date);
        }
        return;
      }
      OneMoreOver(zone, hour, minute, weekdaysOnly, from, start, date);
    }
    SomeWeekday(weekdaysOnly, start + 3);
    assert false;
  }

  lemma PassedOver(zone: Zone, hour: int, minute: int, weekdaysOnly: bool, from: int, day: int)
    requires Regular(zone) && NextRun(zone, hour, minute, weekdaysOnly, from, day)
    ensures weekdaysOnly ==> (day - A_SATURDAY) % 7 >= 2
    ensures forall k :: WallDay(zone, from) <= k < day ==>
              (weekdaysOnly && (k - A_SATURDAY) % 7 < 2) || Runs(zone, hour, minute, k) <= from
  {
    WeekendsAreLeftOut(day);
    forall k | WallDay(zone, from) <= k < day
      ensures (weekdaysOnly && (k - A_SATURDAY) % 7 < 2) || Runs(zone, hour, minute, k) <= from
    {
      WeekendsAreLeftOut(k);
    }
  }

  lemma SomeWeekday(weekdaysOnly: bool, day: int)
    ensures Eligible(weekdaysOnly, day) || Eligible(weekdaysOnly, day + 1) || Eligible(weekdaysOnly, day + 2)
  {
  }

  lemma Candidate(zone: Zone, hour: int, minute: int, from: int, day: int, r: int)
    requires Regular(zone) && ClockTime(hour, minute) && Resolves(zone, DesiredSecond(day, hour, minute), r)
    ensures r == Runs(zone, hour, minute, day)
    ensures r <= from ==> day < WallDay(zone, from) + 3
  {
    var d := DesiredSecond(day, hour, minute);
    ResolvesOnce(zone, d, r, Runs(zone, hour, minute, day));
    var e := EarliestUnlessUnprobed(zone, d, r);
    if r <= from && day >= WallDay(zone, from) + 3 { ThreeDaysOn(zone, hour, minute, from, day, r); }
  }

  // ----- iterating the schedule -----

  /** One spring-forward skips from wall second `d` up to `e`. */
  ghost predicate Leaps(zone: Zone, d: int, e: int) {
    exists t :: SkippedAt(zone, d, t) && e <= t + zone(t)
  }

  /** It skips from the wall time on date `j` up to the one on date `k`. */
  ghost predicate Bridged(zone: Zone, hour: int, minute: int, j: int, k: int) {
    Leaps(zone, DesiredSecond(j, hour, minute), DesiredSecond(k, hour, minute))
  }

  lemma EarliestOrder(zone: Zone, d: int, e: int, x: int, y: int)
    requires Regular(zone) && d < e && IsEarliest(zone, d * 1000, x) && IsEarliest(zone, e * 1000, y)
    ensures x <= y && (x == y <==> Leaps(zone, d, e))
  {
    var p := EarliestExists(zone, d);
    var q := EarliestExists(zone, e);
    EarliestUnique(zone, d * 1000, p * 1000, x);
    EarliestUnique(zone, e * 1000, q * 1000, y);
    SecondsSuffice(zone, d, p);
    SecondsSuffice(zone, e, q);
    assert !(q < p);
    if p == q {
      assert WallSecond(zone, p - 1) < d < e <= WallSecond(zone, p);
      assert SkippedAt(zone, d, p);
    }
    if t :| SkippedAt(zone, d, t) && e <= t + zone(t) {
      SkipHits(zone, d, t);
      assert WallSecond(zone, t) >= e;
      assert forall s :: s < t ==> WallSecond(zone, s) < d < e;
      assert !(p < t) && !(t < p) && !(q < t) && !(t < q);
    }
  }

  /** Two dates share one earliest instant exactly when a single spring-forward skips from the
      first wall time up to the second. */
  lemma SharedInstant(zone: Zone, hour: int, minute: int, j: int, k: int)
    requires Regular(zone) && j < k
    ensures Fires(zone, hour, minute, j) == Fires(zone, hour, minute, k) <==> Bridged(zone, hour, minute, j, k)
  {
    EarliestOrder(zone, DesiredSecond(j, hour, minute), DesiredSecond(k, hour, minute),
                  Fires(zone, hour, minute, j), Fires(zone, hour, minute, k));
  }

  lemma SkipHits(zone: Zone, d: int, t: int)
    requires Regular(zone) && SkippedAt(zone, d, t)
    ensures IsEarliestSecond(zone, d, t)
  {
    var u, before, after := Shape(zone, d);
    SecondsSuffice(zone, d, t);
  }

  /** What a spring-forward skips up to, it does not repeat. */
  lemma SkippedNotRepeated(zone: Zone, d: int, e: int, t: int, u: int)
    requires Regular(zone) && SkippedAt(zone, d, t) && d <= e <= t + zone(t)
    ensures !RepeatedAt(zone, e, u)
  {
    if RepeatedAt(zone, e, u) {
      SameChange(zone, t, u);
      assert false;
    }
  }

  /** The late reading of a repeat comes before the earliest of any later wall time outside it. */
  lemma LateThenEarliest(zone: Zone, d: int, e: int, u: int, y: int)
    requires Regular(zone) && d < e && UnprobedAt(zone, d, u) && !UnprobedAt(zone, e, u)
    requires IsEarliest(zone, e * 1000, y)
    ensures (d - zone(u)) * 1000 < y
  {
    var t, before, after := Shape(zone, d);
    var q := EarliestExists(zone, e);
    EarliestUnique(zone, e * 1000, q * 1000, y);
    SecondsSuffice(zone, e, q);
    assert u == t && e >= t + before;
    assert WallSecond(zone, q) >= e;
    assert d - REACH <= q <= d - after ==> WallSecond(zone, q) < e;
  }

  lemma LateThenLate(zone: Zone, d: int, e: int, u: int, v: int)
    requires Regular(zone) && d < e && UnprobedAt(zone, d, u) && UnprobedAt(zone, e, v)
    ensures d - zone(u) < e - zone(v)
  {
    if u - TWO_DAYS <= v <= u + TWO_DAYS { SameChange(zone, u, v); }
  }

  lemma LateOrder(zone: Zone, d: int, e: int, x: int, y: int)
    requires Regular(zone) && d < e && Resolves(zone, d, x) && Resolves(zone, e, y) && UnprobedRepeat(zone, d)
    ensures x < y && !Leaps(zone, d, e)
  {
    var u :| UnprobedAt(zone, d, u) && x == (d - zone(u)) * 1000;
    if UnprobedRepeat(zone, e) {
      var v :| UnprobedAt(zone, e, v) && y == (e - zone(v)) * 1000;
      LateThenLate(zone, d, e, u, v);
    } else {
      LateThenEarliest(zone, d, e, u, y);
    }
    forall t | SkippedAt(zone, d, t) ensures false { SkippedNotRepeated(zone, d, d, t, u); }
  }

  /** A later wall time never resolves earlier, and resolves to the same instant exactly when one
      spring-forward skips from the first up to the second. */
  lemma ResolvedOrder(zone: Zone, d: int, e: int, x: int, y: int)
    requires Regular(zone) && d < e && Resolves(zone, d, x) && Resolves(zone, e, y)
    ensures x <= y && (x == y <==> Leaps(zone, d, e))
  {
    if UnprobedRepeat(zone, d) {
      LateOrder(zone, d, e, x, y);
    } else if UnprobedRepeat(zone, e) {
      var z := EarliestUnlessUnprobed(zone, e, y);
      EarliestOrder(zone, d, e, x, z);
      var v :| UnprobedAt(zone, e, v);
      forall t | SkippedAt(zone, d, t) ensures e > t + zone(t) {
        if e <= t + zone(t) { SkippedNotRepeated(zone, d, e, t, v); }
      }
    } else {
      EarliestOrder(zone, d, e, x, y);
    }
  }

  /** An instant that shows a later wall time than the one resolved to it has leapt there. */
  lemma ShownPast(zone: Zone, d: int, e: int, x: int)
    requires Regular(zone) && d < e && Resolves(zone, d, x) && e * 1000 <= WallAsUtc(zone, x)
    ensures Leaps(zone, d, e)
  {
    hide UnprobedRepeat, Resolves, IsEarliest, SkippedAt, Regular;
    var z := EarliestUnlessUnprobed(zone, d, x);
    assert !UnprobedRepeat(zone, d);
    var q := EarliestExists(zone, d);
    EarliestUnique(zone, d * 1000, q * 1000, x);
    ExactOrAfterGap(zone, d, q);
    assert x / 1000 == q && WallSecond(zone, q) >= e;
    var t :| SkippedAt(zone, d, t);
    assert e <= t + zone(t);
  }

  lemma RunsOrder(zone: Zone, hour: int, minute: int, j: int, k: int)
    requires Regular(zone) && j < k
    ensures Runs(zone, hour, minute, j) <= Runs(zone, hour, minute, k)
    ensures Runs(zone, hour, minute, j) == Runs(zone, hour, minute, k) <==> Bridged(zone, hour, minute, j, k)
  {
    ResolvedOrder(zone, DesiredSecond(j, hour, minute), DesiredSecond(k, hour, minute),
                  Runs(zone, hour, minute, j), Runs(zone, hour, minute, k));
  }

  /** At the instant a date runs its wall clock shows that date, or later dates it leapt over. */
  lemma RunsOnItsDay(zone: Zone, hour: int, minute: int, j: int)
    requires Regular(zone) && ClockTime(hour, minute)
    ensures j <= WallDay(zone, Runs(zone, hour, minute, j))
    ensures forall k :: j < k < WallDay(zone, Runs(zone, hour, minute, j)) ==> Bridged(zone, hour, minute, j, k)
    ensures forall k :: j < k && !Bridged(zone, hour, minute, j, k) ==> WallDay(zone, Runs(zone, hour, minute, j)) <= k
  {
    var d, x := DesiredSecond(j, hour, minute), Runs(zone, hour, minute, j);
    var z := EarliestUnlessUnprobed(zone, d, x);
    assert WallAsUtc(zone, x) >= d * 1000;
    forall k | j < k < WallDay(zone, x) ensures Bridged(zone, hour, minute, j, k) {
      ShownPast(zone, d, DesiredSecond(k, hour, minute), x);
    }
  }

  /** Eligible dates with none between them. */
  ghost predicate Successive(weekdaysOnly: bool, j: int, k: int) {
    && j < k && Eligible(weekdaysOnly, j) && Eligible(weekdaysOnly, k)
    && forall i :: j < i < k ==> !Eligible(weekdaysOnly, i)
  }

  /** The eligible date after `day`: the next day, or Monday. */
  function NextEligible(weekdaysOnly: bool, day: int): (next: int)
    requires Eligible(weekdaysOnly, day)
    ensures Successive(weekdaysOnly, day, next)
  {
    assert DayOfWeek(day) == 5 ==> DayOfWeek(day + 1) == 6 && DayOfWeek(day + 2) == 0 && DayOfWeek(day + 3) == 1;
    if weekdaysOnly && DayOfWeek(day) == 5 then day + 3 else day + 1
  }

  function LastEligible(weekdaysOnly: bool, day: int): (last: int)
    requires Eligible(weekdaysOnly, day)
    ensures Successive(weekdaysOnly, last, day)
  {
    assert DayOfWeek(day) == 1 ==> DayOfWeek(day - 1) == 0 && DayOfWeek(day - 2) == 6 && DayOfWeek(day - 3) == 5;
    if weekdaysOnly && DayOfWeek(day) == 1 then day - 3 else day - 1
  }

  /** Asking again at the instant a date ran yields the next eligible date exactly when no
      spring-forward skips from the one to the other. */
  lemma NextAfterFiring(zone: Zone, hour: int, minute: int, weekdaysOnly: bool, day: int)
    requires Regular(zone) && ClockTime(hour, minute) && Eligible(weekdaysOnly, day)
    ensures var next := NextEligible(weekdaysOnly, day);
            NextRun(zone, hour, minute, weekdaysOnly, Runs(zone, hour, minute, day), next)
            <==> !Bridged(zone, hour, minute, day, next)
  {
    hide Bridged, Leaps, Resolves, WallDay, Eligible;
    var next, x := NextEligible(weekdaysOnly, day), Runs(zone, hour, minute, day);
    RunsOrder(zone, hour, minute, day, next);
    RunsOnItsDay(zone, hour, minute, day);
    forall k | WallDay(zone, x) <= k < next && Eligible(weekdaysOnly, k) ensures Runs(zone, hour, minute, k) <= x {
      assert k == day;
    }
  }

  ghost predicate Asked(zone: Zone, hour: int, minute: int, weekdaysOnly: bool, from: int, dates: seq<int>, i: int)
    requires Regular(zone) && 0 <= i < |dates|
  {
    NextRun(zone, hour, minute, weekdaysOnly,
            if i == 0 then from else Runs(zone, hour, minute, dates[i - 1]), dates[i])
  }

  /** A run of the scheduler: `dates[i+1]` is what the code's search answers at the instant
      `dates[i]` ran. */
  ghost predicate ScheduleRun(zone: Zone, hour: int, minute: int, weekdaysOnly: bool, from: int, dates: seq<int>)
    requires Regular(zone)
  {
    forall i :: 0 <= i < |dates| ==> Asked(zone, hour, minute, weekdaysOnly, from, dates, i)
  }

  lemma RunSteps(zone: Zone, hour: int, minute: int, weekdaysOnly: bool, from: int, dates: seq<int>, i: int)
    requires Regular(zone) && ClockTime(hour, minute) && 0 < i < |dates|
    requires ScheduleRun(zone, hour, minute, weekdaysOnly, from, dates)
    ensures dates[i - 1] < dates[i] && Eligible(weekdaysOnly, dates[i - 1]) && Eligible(weekdaysOnly, dates[i])
    ensures Runs(zone, hour, minute, dates[i - 1]) < Runs(zone, hour, minute, dates[i])
    ensures forall k :: Eligible(weekdaysOnly, k) && dates[i - 1] <= k < dates[i] ==>
              Runs(zone, hour, minute, k) == Runs(zone, hour, minute, dates[i - 1])
  {
    hide Bridged, Resolves;
    var last := dates[i - 1];
    var x := Runs(zone, hour, minute, last);
    assert Asked(zone, hour, minute, weekdaysOnly, from, dates, i - 1);
    assert Asked(zone, hour, minute, weekdaysOnly, from, dates, i);
    RunsOnItsDay(zone, hour, minute, last);
    forall k | Eligible(weekdaysOnly, k) && last < k < dates[i] ensures Runs(zone, hour, minute, k) == x {
      RunsOrder(zone, hour, minute, last, k);
      if k < WallDay(zone, x) { assert Bridged(zone, hour, minute, last, k); }
    }
  }

  lemma {:induction false} RunInOrder(zone: Zone, hour: int, minute: int, weekdaysOnly: bool, from: int,
                                      dates: seq<int>, i: int, j: int)
    requires Regular(zone) && ClockTime(hour, minute)
    requires ScheduleRun(zone, hour, minute, weekdaysOnly, from, dates) && 0 <= i < j < |dates|
    ensures dates[i] < dates[j] && Runs(zone, hour, minute, dates[i]) < Runs(zone, hour, minute, dates[j])
    decreases j
  {
    RunSteps(zone, hour, minute, weekdaysOnly, from, dates, j);
    if i < j - 1 { RunInOrder(zone, hour, minute, weekdaysOnly, from, dates, i, j - 1); }
  }

  /** The visited date that stands for `k`: itself, or an earlier one at the same instant. */
  lemma {:induction false} StandsFor(zone: Zone, hour: int, minute: int, weekdaysOnly: bool, from: int,
                                     dates: seq<int>, k: int, n: int) returns (i: int)
    requires Regular(zone) && ClockTime(hour, minute)
    requires ScheduleRun(zone, hour, minute, weekdaysOnly, from, dates) && 0 <= n < |dates|
    requires Eligible(weekdaysOnly, k) && dates[0] <= k <= dates[n]
    ensures 0 <= i <= n && dates[i] <= k && Runs(zone, hour, minute, dates[i]) == Runs(zone, hour, minute, k)
    decreases n
  {
    if k == dates[n] {
      i := n;
    } else if 0 < n && dates[n - 1] <= k {
      i := n - 1;
      RunSteps(zone, hour, minute, weekdaysOnly, from, dates, n);
    } else {
      assert n > 0;
      i := StandsFor(zone, hour, minute, weekdaysOnly, from, dates, k, n - 1);
    }
  }

  ghost predicate InRange(dates: seq<int>, k: int)
    requires dates != []
  {
    dates[0] <= k <= dates[|dates| - 1]
  }

  lemma VisitedAtOwnInstant(zone: Zone, hour: int, minute: int, weekdaysOnly: bool, from: int, dates: seq<int>,
                            j: int, n: int)
    requires Regular(zone) && ClockTime(hour, minute)
    requires ScheduleRun(zone, hour, minute, weekdaysOnly, from, dates) && 0 <= n < |dates|
    requires Successive(weekdaysOnly, j, dates[n]) && dates[0] <= j
    ensures Runs(zone, hour, minute, j) < Runs(zone, hour, minute, dates[n])
  {
    assert n > 0;
    RunSteps(zone, hour, minute, weekdaysOnly, from, dates, n);
  }

  lemma OwnInstantVisited(zone: Zone, hour: int, minute: int, weekdaysOnly: bool, from: int, dates: seq<int>,
                          j: int, k: int, i: int)
    requires Regular(zone) && ClockTime(hour, minute)
    requires ScheduleRun(zone, hour, minute, weekdaysOnly, from, dates) && 0 <= i < |dates|
    requires dates[i] <= k && Runs(zone, hour, minute, dates[i]) == Runs(zone, hour, minute, k)
    requires Successive(weekdaysOnly, j, k) && Runs(zone, hour, minute, j) < Runs(zone, hour, minute, k)
    ensures dates[i] == k
  {
    assert Asked(zone, hour, minute, weekdaysOnly, from, dates, i);
    forall d | d < j ensures Runs(zone, hour, minute, d) <= Runs(zone, hour, minute, j) {
      RunsOrder(zone, hour, minute, d, j);
    }
  }

  lemma VisitedByOwnInstant(zone: Zone, hour: int, minute: int, weekdaysOnly: bool, from: int, dates: seq<int>,
                            j: int, k: int)
    requires Regular(zone) && ClockTime(hour, minute)
    requires ScheduleRun(zone, hour, minute, weekdaysOnly, from, dates) && dates != []
    requires Successive(weekdaysOnly, j, k) && InRange(dates, j) && InRange(dates, k)
    ensures k in dates <==> Runs(zone, hour, minute, j) < Runs(zone, hour, minute, k)
  {
    if k in dates {
      var n :| 0 <= n < |dates| && dates[n] == k;
      VisitedAtOwnInstant(zone, hour, minute, weekdaysOnly, from, dates, j, n);
    }
    if Runs(zone, hour, minute, j) < Runs(zone, hour, minute, k) {
      var i := StandsFor(zone, hour, minute, weekdaysOnly, from, dates, k, |dates| - 1);
      OwnInstantVisited(zone, hour, minute, weekdaysOnly, from, dates, j, k, i);
      assert dates[i] in dates;
    }
  }

  /** Of two successive eligible dates the later one is visited exactly when it has an
      instant of its own. */
  lemma VisitedUnlessBridged(zone: Zone, hour: int, minute: int, weekdaysOnly: bool, from: int, dates: seq<int>,
                             j: int, k: int)
    requires Regular(zone) && ClockTime(hour, minute)
    requires ScheduleRun(zone, hour, minute, weekdaysOnly, from, dates) && dates != []
    requires Successive(weekdaysOnly, j, k) && InRange(dates, j) && InRange(dates, k)
    ensures k in dates <==> !Bridged(zone, hour, minute, j, k)
  {
    VisitedByOwnInstant(zone, hour, minute, weekdaysOnly, from, dates, j, k);
    RunsOrder(zone, hour, minute, j, k);
  }

  /** Iterating the code's search, in any zone: the dates before the first are over, but for a
      late reading of a date before the one `from` falls on; from there on it goes through dates
      and instants in order, each once, and leaves no eligible date's instant out. */
  lemma RunVisitsEveryInstant(zone: Zone, hour: int, minute: int, weekdaysOnly: bool, from: int, dates: seq<int>)
    requires Regular(zone) && ClockTime(hour, minute)
    requires ScheduleRun(zone, hour, minute, weekdaysOnly, from, dates) && dates != []
    ensures forall k :: k < dates[0] && Eligible(weekdaysOnly, k) ==>
              || Runs(zone, hour, minute, k) <= from
              || (k < WallDay(zone, from) && UnprobedRepeat(zone, DesiredSecond(k, hour, minute)))
    ensures forall i, j :: 0 <= i < j < |dates| ==>
              dates[i] < dates[j] && Runs(zone, hour, minute, dates[i]) < Runs(zone, hour, minute, dates[j])
    ensures forall k :: Eligible(weekdaysOnly, k) && InRange(dates, k) ==>
              exists i :: 0 <= i < |dates| && Runs(zone, hour, minute, dates[i]) == Runs(zone, hour, minute, k)
  {
    assert Asked(zone, hour, minute, weekdaysOnly, from, dates, 0);
    forall k | k < WallDay(zone, from) && !UnprobedRepeat(zone, DesiredSecond(k, hour, minute))
      ensures Runs(zone, hour, minute, k) <= from
    {
      assert Desired(k, hour, minute) < WallDay(zone, from) * DAY <= WallAsUtc(zone, from);
    }
    forall i, j | 0 <= i < j < |dates|
      ensures dates[i] < dates[j] && Runs(zone, hour, minute, dates[i]) < Runs(zone, hour, minute, dates[j])
    {
      RunInOrder(zone, hour, minute, weekdaysOnly, from, dates, i, j);
    }
    forall k | Eligible(weekdaysOnly, k) && InRange(dates, k)
      ensures exists i :: 0 <= i < |dates| && Runs(zone, hour, minute, dates[i]) == Runs(zone, hour, minute, k)
    {
      var i := StandsFor(zone, hour, minute, weekdaysOnly, from, dates, k, |dates| - 1);
    }
  }

  /** It visits the eligible dates themselves, all of them and no others, exactly when no
      spring-forward skips from one of them to the next. */
  lemma RunVisitsEveryDate(zone: Zone, hour: int, minute: int, weekdaysOnly: bool, from: int, dates: seq<int>)
    requires Regular(zone) && ClockTime(hour, minute)
    requires ScheduleRun(zone, hour, minute, weekdaysOnly, from, dates) && dates != []
    ensures (forall k :: InRange(dates, k) ==> (Eligible(weekdaysOnly, k) <==> k in dates)) <==>
            (forall j, k :: Successive(weekdaysOnly, j, k) && InRange(dates, j) && InRange(dates, k) ==>
               !Bridged(zone, hour, minute, j, k))
  {
    forall j, k | Successive(weekdaysOnly, j, k) && InRange(dates, j) && InRange(dates, k)
      ensures k in dates <==> !Bridged(zone, hour, minute, j, k)
    {
      VisitedUnlessBridged(zone, hour, minute, weekdaysOnly, from, dates, j, k);
    }
    forall k | k in dates ensures Eligible(weekdaysOnly, k) {
      var i :| 0 <= i < |dates| && dates[i] == k;
      assert Asked(zone, hour, minute, weekdaysOnly, from, dates, i);
    }
    if forall j, k :: Successive(weekdaysOnly, j, k) && InRange(dates, j) && InRange(dates, k) ==>
                        !Bridged(zone, hour, minute, j, k) {
      forall k | InRange(dates, k) && Eligible(weekdaysOnly, k) ensures k in dates {
        if k != dates[0] {
          var j := LastEligible(weekdaysOnly, k);
          assert dates[0] in dates;
          assert Successive(weekdaysOnly, j, k) && InRange(dates, j);
        }
      }
    }
  }

  // ----- where the promise of the header stops -----

  /** Antarctica/Troll falls back by two hours; its repeated 01:30 runs at the later reading. */
  lemma TwoHourFallBackRunsLate(zone: Zone, r: int)
    requires forall s :: zone(s) == if s < 1_000_000 * DAY_SECONDS then 7200 else 0
    requires Resolves(zone, DesiredSecond(1_000_000, 1, 30), r)
    ensures Regular(zone)
    ensures !IsEarliest(zone, Desired(1_000_000, 1, 30), r)
    ensures WallAsUtc(zone, r) == WallAsUtc(zone, r - 2 * HOUR)
  {
    var t := 1_000_000 * DAY_SECONDS;
    var d := DesiredSecond(1_000_000, 1, 30);
    assert forall s :: Changes(zone, s) ==> s == t;
    assert UnprobedAt(zone, d, t);
    assert d == t + 5400;
    var e := EarliestUnlessUnprobed(zone, d, r);
  }

  /** Samoa skipped 30 December 2011: a midnight schedule has that date and the next share an instant. */
  lemma SkippedDateSharesInstant(zone: Zone, day: int)
    requires forall s :: zone(s) == if s < day * DAY_SECONDS + 36_000 then -36_000 else 50_400
    ensures Regular(zone)
    ensures Fires(zone, 0, 0, day) == Fires(zone, 0, 0, day + 1) && Runs(zone, 0, 0, day) == Runs(zone, 0, 0, day + 1)
  {
    var t := day * DAY_SECONDS + 36_000;
    assert forall s :: Changes(zone, s) ==> s == t;
    assert SkippedAt(zone, DesiredSecond(day, 0, 0), t);
    assert DesiredSecond(day + 1, 0, 0) <= t + zone(t);
    SharedInstant(zone, 0, 0, day, day + 1);
    RunsOrder(zone, 0, 0, day, day + 1);
  }
}
