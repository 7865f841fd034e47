/**
  Schedules: the instants they fire at, the next one after a bound, and what a wakeup materializes
  under a misfire policy. Instants are exact microseconds.
 */
module Schedules {
  import opened Outcomes
  import opened Listings

  type Time = int

  const MaxCronSearchYears: int := 8

  const MaxMisfireScan: nat := 100_000

  /**
    A compiled Cron expression in a time zone. Days are numbered; `toUtc` gives the earlier instant of a
    local minute, or None inside a gap, and `localDay` the local day of an instant.
   */
  datatype Calendar = Calendar(
    minutes: set<int>, hours: set<int>, days: set<int>, months: set<int>, weekdays: set<int>,
    yearOf: int -> int, monthOf: int -> int, dayOf: int -> int, weekdayOf: int -> int,
    localDay: Time -> int, toUtc: (int, int, int) -> Option<Time>)

  datatype Schedule =
    | Once(at: Time)
    | Interval(every: Time, startAt: Time)
    | Cron(calendar: Calendar)

  predicate LocalBefore(a: (int, int, int), b: (int, int, int)) {
    a.0 < b.0 || (a.0 == b.0 && (a.1 < b.1 || (a.1 == b.1 && a.2 < b.2)))
  }

  /** What the time zone and the calendar promise: local order is UTC order, and years advance. */
  ghost predicate IsCalendar(calendar: Calendar) {
    && (forall d, h, m, e, i, n ::
          LocalBefore((d, h, m), (e, i, n)) && calendar.toUtc(d, h, m).Some? && calendar.toUtc(e, i, n).Some? ==>
            calendar.toUtc(d, h, m).value < calendar.toUtc(e, i, n).value)
    && (forall d, h, m, after ::
          calendar.toUtc(d, h, m).Some? && calendar.toUtc(d, h, m).value > after ==> calendar.localDay(after) <= d)
    && (forall d :: calendar.yearOf(d) < calendar.yearOf(d + 366))
    && (forall d, e :: d <= e ==> calendar.yearOf(d) <= calendar.yearOf(e))
  }

  ghost predicate IsSchedule(schedule: Schedule) {
    match schedule
    case Once(_) => true
    case Interval(every, _) => every > 0
    case Cron(calendar) => IsCalendar(calendar)
  }

  predicate DayMatches(calendar: Calendar, day: int) {
    && calendar.monthOf(day) in calendar.months
    && calendar.dayOf(day) in calendar.days
    && calendar.weekdayOf(day) in calendar.weekdays
  }

  /** The schedule fires at this local minute. */
  predicate IsFiringMinute(calendar: Calendar, day: int, hour: int, minute: int) {
    DayMatches(calendar, day) && hour in calendar.hours && minute in calendar.minutes && calendar.toUtc(day, hour, minute).Some?
  }

  ghost predicate CronFires(calendar: Calendar, t: Time) {
    exists d, h, m :: IsFiringMinute(calendar, d, h, m) && calendar.toUtc(d, h, m).value == t
  }

  /** The instants at which a schedule fires. */
  ghost predicate Fires(schedule: Schedule, t: Time) {
    match schedule
    case Once(at) => t == at
    case Interval(every, startAt) => every > 0 && t >= startAt && (t - startAt) % every == 0
    case Cron(calendar) => CronFires(calendar, t)
  }

  /** The least firing strictly after a bound, or None when there is none. */
  ghost predicate IsNext(schedule: Schedule, after: Time, next: Option<Time>) {
    match next
    case None => forall t :: Fires(schedule, t) ==> t <= after
    case Some(t) => t > after && Fires(schedule, t) && forall u :: Fires(schedule, u) && u > after ==> t <= u
  }

  /** The expression selects this local minute in all five of its fields, and the instant is its UTC time. */
  predicate Selects(calendar: Calendar, day: int, hour: int, minute: int, t: Time) {
    && calendar.monthOf(day) in calendar.months
    && calendar.dayOf(day) in calendar.days
    && calendar.weekdayOf(day) in calendar.weekdays
    && hour in calendar.hours
    && minute in calendar.minutes
    && calendar.toUtc(day, hour, minute) == Some(t)
  }

  /** The instant is selected, and no instant between the bound and it is. */
  ghost predicate IsNextSelected(calendar: Calendar, after: Time, t: Time) {
    && t > after
    && (exists d, h, m :: Selects(calendar, d, h, m, t))
    && (forall d, h, m, u :: Selects(calendar, d, h, m, u) && u > after ==> t <= u)
  }

  ghost predicate NoneSelectedInSearchedYears(calendar: Calendar, after: Time) {
    forall d, h, m, u :: Selects(calendar, d, h, m, u) && u > after ==> calendar.yearOf(d) > calendar.yearOf(calendar.localDay(after)) + 8
  }

  /** A Cron schedule fires at exactly the selected instants. */
  lemma FiresWhenSelected(calendar: Calendar, t: Time)
    ensures Fires(Cron(calendar), t) <==> exists d, h, m :: Selects(calendar, d, h, m, t)
  {
    if d, h, m :| Selects(calendar, d, h, m, t) {
      assert IsFiringMinute(calendar, d, h, m);
    }
    if CronFires(calendar, t) {
      var d, h, m :| IsFiringMinute(calendar, d, h, m) && calendar.toUtc(d, h, m).value == t;
      assert Selects(calendar, d, h, m, t);
    }
  }

  lemma NextIsNextSelected(calendar: Calendar, after: Time, t: Time)
    requires IsNext(Cron(calendar), after, Some(t))
    ensures IsNextSelected(calendar, after, t)
  {
    FiresWhenSelected(calendar, t);
    forall d, h, m, u | Selects(calendar, d, h, m, u) && u > after ensures t <= u {
      FiresWhenSelected(calendar, u);
    }
  }

  lemma NoneSelected(calendar: Calendar, after: Time)
    requires NoRunInSearchedYears(Cron(calendar), after)
    ensures NoneSelectedInSearchedYears(calendar, after)
  {
    forall d, h, m, u | Selects(calendar, d, h, m, u) && u > after
      ensures calendar.yearOf(d) > calendar.yearOf(calendar.localDay(after)) + 8
    {
      assert IsFiringMinute(calendar, d, h, m);
    }
  }

  // ---------------------------------------------------------------- intervals

  function NextInterval(every: Time, startAt: Time, after: Time): Time
    requires every > 0
  {
    if after < startAt then startAt
    else
      var steps := (after - startAt) / every + 1;
      startAt + (if steps < 1 then 1 else steps) * every
  }

  lemma GridPoint(every: Time, startAt: Time, n: int)
    requires every > 0 && n >= 0
    ensures n * every >= 0 && (startAt + n * every - startAt) % every == 0
  {
    MultipleIsDivisible(n, every);
  }

  lemma {:induction false} MultipleIsDivisible(n: int, every: int)
    requires every > 0 && n >= 0
    ensures n * every >= 0 && (n * every) % every == 0
    decreases n
  {
    if n > 0 {
      MultipleIsDivisible(n - 1, every);
      assert n * every == (n - 1) * every + every;
      var q := ((n - 1) * every) / every;
      assert (n - 1) * every == q * every;
      assert n * every == (q + 1) * every;
      DivisionIsUnique(n * every, every, q + 1, 0);
    }
  }

  lemma DivisionIsUnique(x: int, every: int, q: int, r: int)
    requires every > 0 && 0 <= r < every && x == q * every + r
    ensures x / every == q && x % every == r
  {
    var p, s := x / every, x % every;
    var k := p - q;
    Remainder(x, every);
    Distributes(p, q, every);
    if k >= 1 {
      ScaledUp(k, every);
    } else if k <= -1 {
      ScaledUp(-k, every);
      Negated(k, every);
    }
  }

  lemma Remainder(x: int, every: int)
    requires every > 0
    ensures x == (x / every) * every + x % every && 0 <= x % every < every
  {
  }

  lemma Distributes(p: int, q: int, every: int)
    ensures (p - q) * every == p * every - q * every
  {
  }

  lemma ScaledUp(k: int, every: int)
    requires k >= 1 && every > 0
    ensures k * every >= every
  {
  }

  lemma Negated(k: int, every: int)
    ensures (-k) * every == -(k * every)
  {
  }

  /** Between two neighbouring grid points nothing fires. */
  lemma NoFiringBetween(every: Time, startAt: Time, n: int, u: Time)
    requires every > 0 && n >= 0 && Fires(Interval(every, startAt), u)
    ensures u <= startAt + n * every || u >= startAt + (n + 1) * every
  {
    var q := (u - startAt) / every;
    assert u - startAt == q * every;
    if q <= n {
      assert q * every <= n * every;
    } else {
      assert q * every >= (n + 1) * every;
    }
  }

  lemma NextIntervalIsNext(every: Time, startAt: Time, after: Time)
    requires every > 0
    ensures IsNext(Interval(every, startAt), after, Some(NextInterval(every, startAt, after)))
  {
    var schedule := Interval(every, startAt);
    if after < startAt {
      MultipleIsDivisible(0, every);
    } else {
      var n := (after - startAt) / every;
      assert after - startAt == n * every + (after - startAt) % every;
      NonNegativeQuotient(after - startAt, every);
      assert (n + 1) * every == n * every + every;
      GridPoint(every, startAt, n + 1);
      forall u | Fires(schedule, u) && u > after ensures startAt + (n + 1) * every <= u {
        NoFiringBetween(every, startAt, n, u);
      }
    }
  }

  lemma NonNegativeQuotient(x: int, every: int)
    requires x >= 0 && every > 0
    ensures x / every >= 0
  {
  }

  // ---------------------------------------------------------------- cron

  /** Some selected minute of the hour lies after the bound. */
  predicate FiresLater(calendar: Calendar, day: int, hour: int, minute: int, after: Time) {
    calendar.toUtc(day, hour, minute).Some? && calendar.toUtc(day, hour, minute).value > after
  }

  method SearchHour(calendar: Calendar, day: int, hour: int, minutes: seq<int>, after: Time) returns (found: Option<Time>)
    requires IsCalendar(calendar) && IsListing(minutes, calendar.minutes, (a, b) => a <= b)
    ensures found.None? ==> forall m :: m in calendar.minutes ==> !FiresLater(calendar, day, hour, m, after)
    ensures found.Some? ==>
              exists m :: m in calendar.minutes && FiresLater(calendar, day, hour, m, after)
                          && found.value == calendar.toUtc(day, hour, m).value
                          && forall n :: n in calendar.minutes && FiresLater(calendar, day, hour, n, after) ==> m <= n
  {
    var j := 0;
    while j < |minutes|
      invariant 0 <= j <= |minutes|
      invariant forall i :: 0 <= i < j ==> !FiresLater(calendar, day, hour, minutes[i], after)
    {
      if FiresLater(calendar, day, hour, minutes[j], after) {
        forall n | n in calendar.minutes && FiresLater(calendar, day, hour, n, after) ensures minutes[j] <= n {
          assert n in minutes;
          var i :| 0 <= i < |minutes| && minutes[i] == n;
        }
        assert minutes[j] in calendar.minutes;
        return Some(calendar.toUtc(day, hour, minutes[j]).value);
      }
      j := j + 1;
    }
    forall m | m in calendar.minutes ensures !FiresLater(calendar, day, hour, m, after) {
      assert m in minutes;
    }
    return None;
  }

  /** The first instant after the bound among the selected minutes of a day. */
  ghost predicate IsFirstOfDay(calendar: Calendar, day: int, after: Time, t: Time) {
    exists h, m ::
      && h in calendar.hours && m in calendar.minutes && FiresLater(calendar, day, h, m, after) && t == calendar.toUtc(day, h, m).value
      && forall i, n :: i in calendar.hours && n in calendar.minutes && FiresLater(calendar, day, i, n, after) ==>
           !LocalBefore((day, i, n), (day, h, m))
  }

  method SearchDay(calendar: Calendar, day: int, hours: seq<int>, minutes: seq<int>, after: Time) returns (found: Option<Time>)
    requires IsCalendar(calendar) && IsListing(hours, calendar.hours, (a, b) => a <= b)
    requires IsListing(minutes, calendar.minutes, (a, b) => a <= b)
    ensures found.None? ==> forall h, m :: h in calendar.hours && m in calendar.minutes ==> !FiresLater(calendar, day, h, m, after)
    ensures found.Some? ==> IsFirstOfDay(calendar, day, after, found.value)
  {
    hide IsCalendar;
    var j := 0;
    while j < |hours|
      invariant 0 <= j <= |hours|
      invariant forall i, m :: 0 <= i < j && m in calendar.minutes ==> !FiresLater(calendar, day, hours[i], m, after)
    {
      found := SearchHour(calendar, day, hours[j], minutes, after);
      if found.Some? {
        ghost var m :| && m in calendar.minutes && FiresLater(calendar, day, hours[j], m, after)
                       && found.value == calendar.toUtc(day, hours[j], m).value
                       && forall n :: n in calendar.minutes && FiresLater(calendar, day, hours[j], n, after) ==> m <= n;
        forall i, n | i in calendar.hours && n in calendar.minutes && FiresLater(calendar, day, i, n, after)
          ensures !LocalBefore((day, i, n), (day, hours[j], m))
        {
          assert i in hours;
          var x :| 0 <= x < |hours| && hours[x] == i;
        }
        assert hours[j] in calendar.hours;
        return;
      }
      j := j + 1;
    }
    forall h, m | h in calendar.hours && m in calendar.minutes ensures !FiresLater(calendar, day, h, m, after) {
      assert h in hours;
      var x :| 0 <= x < |hours| && hours[x] == h;
    }
    return None;
  }

  /** No matching minute of these days lies after the bound. */
  ghost predicate NothingFiresIn(calendar: Calendar, from: int, to: int, after: Time) {
    forall d, h, m :: from <= d < to && IsFiringMinute(calendar, d, h, m) ==> calendar.toUtc(d, h, m).value <= after
  }

  /** The first find in day order is the least firing after the bound. */
  lemma FirstFindIsNext(calendar: Calendar, day: int, after: Time, t: Time)
    requires IsCalendar(calendar) && DayMatches(calendar, day) && IsFirstOfDay(calendar, day, after, t)
    requires NothingFiresIn(calendar, calendar.localDay(after), day, after)
    ensures IsNext(Cron(calendar), after, Some(t))
  {
    var h, m :| && h in calendar.hours && m in calendar.minutes && FiresLater(calendar, day, h, m, after) && t == calendar.toUtc(day, h, m).value
                && forall i, n :: i in calendar.hours && n in calendar.minutes && FiresLater(calendar, day, i, n, after) ==>
                     !LocalBefore((day, i, n), (day, h, m));
    assert IsFiringMinute(calendar, day, h, m);
    forall u | CronFires(calendar, u) && u > after ensures t <= u {
      var e, i, n :| IsFiringMinute(calendar, e, i, n) && calendar.toUtc(e, i, n).value == u;
      assert calendar.localDay(after) <= e;
      assert e >= day;
      if (e, i, n) != (day, h, m) {
        if e == day {
          assert FiresLater(calendar, day, i, n, after);
        }
        assert LocalBefore((day, h, m), (e, i, n));
      }
    }
  }

  lemma {:induction false} YearsAdvance(calendar: Calendar, day: int, n: nat)
    requires IsCalendar(calendar)
    ensures calendar.yearOf(day + 366 * n) >= calendar.yearOf(day) + n
  {
    if n > 0 {
      YearsAdvance(calendar, day, n - 1);
      assert day + 366 * n == day + 366 * (n - 1) + 366;
    }
  }

  datatype ScheduleError = NoRunInRange | TooManyCandidates

  /** Every run of the Cron schedule after the bound lies in a year beyond the searched ones. */
  ghost predicate NoRunInSearchedYears(schedule: Schedule, after: Time) {
    && schedule.Cron?
    && var calendar := schedule.calendar;
    forall d, h, m :: IsFiringMinute(calendar, d, h, m) && calendar.toUtc(d, h, m).value > after ==>
      calendar.yearOf(d) > calendar.yearOf(calendar.localDay(after)) + MaxCronSearchYears
  }

  /** The day, hour and minute search; it fails only if the searched years hold no run. */
  method NextCron(calendar: Calendar, after: Time) returns (r: Outcome<Time, ScheduleError>)
    requires IsCalendar(calendar)
    ensures r.Ok? ==> IsNext(Cron(calendar), after, Some(r.value)) && IsNextSelected(calendar, after, r.value)
    ensures r.Err? ==> r.error == NoRunInRange
    ensures r.Err? ==> NoRunInSearchedYears(Cron(calendar), after) && NoneSelectedInSearchedYears(calendar, after)
  {
    hide IsCalendar, IsNext, IsNextSelected, NoneSelectedInSearchedYears, NoRunInSearchedYears, IsFirstOfDay, NothingFiresIn;
    var hours := ListInOrder(calendar.hours, (a, b) => a <= b);
    var minutes := ListInOrder(calendar.minutes, (a, b) => a <= b);
    var start := calendar.localDay(after);
    var endYear := calendar.yearOf(start) + MaxCronSearchYears;
    var day := start;
    NothingFiresYet(calendar, start, after);
    while calendar.yearOf(day) <= endYear
      invariant start <= day && NothingFiresIn(calendar, start, day, after)
      decreases start + 366 * 9 - day
    {
      SearchIsBounded(calendar, start, day);
      if DayMatches(calendar, day) {
        var found := SearchDay(calendar, day, hours, minutes, after);
        if found.Some? {
          FirstFindIsNext(calendar, day, after, found.value);
          NextIsNextSelected(calendar, after, found.value);
          return Ok(found.value);
        }
      }
      NothingFiresOnDay(calendar, start, day, after);
      day := day + 1;
    }
    NoRunIsLeft(calendar, day, after);
    NoneSelected(calendar, after);
    return Err(NoRunInRange);
  }

  lemma NothingFiresYet(calendar: Calendar, start: int, after: Time)
    ensures NothingFiresIn(calendar, start, start, after)
  {
  }

  lemma NothingFiresOnDay(calendar: Calendar, start: int, day: int, after: Time)
    requires NothingFiresIn(calendar, start, day, after)
    requires DayMatches(calendar, day) ==> forall h, m :: h in calendar.hours && m in calendar.minutes ==> !FiresLater(calendar, day, h, m, after)
    ensures NothingFiresIn(calendar, start, day + 1, after)
  {
    hide DayMatches;
    forall d, h, m | start <= d < day + 1 && IsFiringMinute(calendar, d, h, m) ensures calendar.toUtc(d, h, m).value <= after {
      if d == day {
        assert !FiresLater(calendar, day, h, m, after);
      }
    }
  }

  /** While the year is searched, fewer than nine long years have gone by. */
  lemma SearchIsBounded(calendar: Calendar, start: int, day: int)
    requires IsCalendar(calendar) && calendar.yearOf(day) <= calendar.yearOf(start) + MaxCronSearchYears
    ensures day < start + 366 * 9
  {
    YearsAdvance(calendar, start, 9);
  }

  lemma NoRunIsLeft(calendar: Calendar, day: int, after: Time)
    requires IsCalendar(calendar) && NothingFiresIn(calendar, calendar.localDay(after), day, after)
    requires calendar.yearOf(day) > calendar.yearOf(calendar.localDay(after)) + MaxCronSearchYears
    ensures NoRunInSearchedYears(Cron(calendar), after)
  {
    forall d, h, m | IsFiringMinute(calendar, d, h, m) && calendar.toUtc(d, h, m).value > after
      ensures calendar.yearOf(d) > calendar.yearOf(calendar.localDay(after)) + MaxCronSearchYears
    {
      assert calendar.localDay(after) <= d;
      assert d >= day;
    }
  }

  /** The first firing strictly after the bound. */
  method NextRunAfter(schedule: Schedule, after: Time) returns (r: Outcome<Option<Time>, ScheduleError>)
    requires IsSchedule(schedule)
    ensures r.Ok? ==> IsNext(schedule, after, r.value)
    ensures schedule.Once? ==> r == Ok(if schedule.at > after then Some(schedule.at) else None)
    ensures schedule.Interval? ==> r.Ok? && r.value.Some?
    ensures schedule.Cron? && r.Ok? ==> r.value.Some? && IsNextSelected(schedule.calendar, after, r.value.value)
    ensures schedule.Cron? && r.Err? ==> NoneSelectedInSearchedYears(schedule.calendar, after)
    ensures r.Err? ==> r.error == NoRunInRange && NoRunInSearchedYears(schedule, after)
  {
    match schedule
    case Once(at) => return Ok(if at > after then Some(at) else None);
    case Interval(every, startAt) =>
      NextIntervalIsNext(every, startAt, after);
      return Ok(Some(NextInterval(every, startAt, after)));
    case Cron(calendar) =>
      var found := NextCron(calendar, after);
      return if found.Ok? then Ok(Some(found.value)) else Err(found.error);
  }
}
