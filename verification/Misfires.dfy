/** What one wakeup materializes: the due instants a misfire policy selects, and the next wakeup. */
module Misfires {
  import opened Outcomes
  import opened Schedules

  datatype MisfireMode = Skip | Latest | CatchUp

  datatype MisfirePolicy = MisfirePolicy(mode: MisfireMode, grace: Time, catchUpWindow: Time, maxCatchUp: nat)

  predicate IsPolicy(policy: MisfirePolicy) {
    policy.grace >= 0 && policy.catchUpWindow > 0 && policy.maxCatchUp >= 1
  }

  datatype Materialized = Materialized(dueAt: seq<Time>, nextRunAt: Option<Time>, skippedBefore: Option<Time>)

  // ---------------------------------------------------------------- the due instants

  predicate IsIncreasing(times: seq<Time>) {
    forall i, j :: 0 <= i < j < |times| ==> times[i] < times[j]
  }

  /** All the firings between two instants, in order. */
  ghost predicate AreDue(schedule: Schedule, from: Time, to: Time, times: seq<Time>) {
    && IsIncreasing(times)
    && forall t :: t in times <==> from <= t <= to && Fires(schedule, t)
  }

  ghost predicate AreSomeDue(schedule: Schedule, from: Time, to: Time, times: seq<Time>) {
    IsIncreasing(times) && forall t :: t in times ==> from <= t <= to && Fires(schedule, t)
  }

  /** The scan from instant to instant, which gives up at its limit. */
  method ScanDue(schedule: Schedule, from: Time, to: Time) returns (r: Outcome<seq<Time>, ScheduleError>)
    requires IsSchedule(schedule)
    ensures r.Ok? ==> AreDue(schedule, from, to, r.value) && |r.value| < 100_000
    ensures r == Err(TooManyCandidates) ==> exists times :: AreSomeDue(schedule, from, to, times) && |times| == 100_000
    ensures r == Err(NoRunInRange) ==> exists after :: from - 1 <= after <= Max(from - 1, to) && NoRunInSearchedYears(schedule, after)
  {
    hide Fires, NoRunInSearchedYears;
    var cursor, due, n := from - 1, [], 0;
    while n < MaxMisfireScan
      invariant 0 <= n == |due| <= MaxMisfireScan && AreSomeDue(schedule, from, to, due)
      invariant from - 1 <= cursor <= Max(from - 1, to)
      invariant cursor == if due == [] then from - 1 else due[|due| - 1]
      invariant forall t :: from <= t <= cursor && Fires(schedule, t) ==> t in due
    {
      var next := NextRunAfter(schedule, cursor);
      if next.Err? {
        return Err(next.error);
      }
      if next.value.None? || next.value.value > to {
        return Ok(due);
      }
      assert forall t :: t in due ==> t <= cursor;
      assert due != [] ==> due[|due| - 1] in due;
      due, cursor, n := due + [next.value.value], next.value.value, n + 1;
    }
    return Err(TooManyCandidates);
  }

  function Max(a: Time, b: Time): Time {
    if a < b then b else a
  }

  function ScanStart(nextRunAt: Time, now: Time, policy: MisfirePolicy): Time {
    Max(nextRunAt, now - policy.catchUpWindow)
  }

  /** The closed form of the latest due instant of an interval. */
  function LatestInterval(every: Time, firstDue: Time, now: Time): Time
    requires every > 0
  {
    firstDue + Max(0, (now - firstDue) / every) * every
  }

  function Last(times: seq<Time>): seq<Time> {
    if times == [] then [] else [times[|times| - 1]]
  }

  function First(times: seq<Time>, n: nat): seq<Time> {
    if |times| <= n then times else times[..n]
  }

  /** The closed form answers like the scan only from the grid; see below. */
  predicate UsesClosedForm(schedule: Schedule, policy: MisfirePolicy) {
    policy.mode.Latest? && schedule.Interval?
  }

  /** The selection from a list of due instants, and whether it reports the wakeup as skipped. */
  predicate ReportsSkipped(firstDue: Time, scanStart: Time, times: seq<Time>, m: Materialized) {
    m.skippedBefore == if firstDue < scanStart || |times| > |m.dueAt| then Some(firstDue) else None
  }

  /** What a wakeup that is due selects. */
  ghost predicate SelectsDue(schedule: Schedule, firstDue: Time, now: Time, policy: MisfirePolicy, m: Materialized)
    requires IsSchedule(schedule)
  {
    var from := ScanStart(firstDue, now, policy);
    match policy.mode
    case Skip =>
      && m.dueAt == (if firstDue < now - policy.grace then [] else [firstDue])
      && m.skippedBefore == (if m.dueAt == [] then Some(firstDue) else None)
    case Latest =>
      if schedule.Interval? then
        && m.skippedBefore == ClosedSkipped(schedule.every, firstDue, now)
        && (Fires(schedule, firstDue) ==> exists times :: AreDue(schedule, from, now, times) && m.dueAt == Last(times))
      else exists times :: AreDue(schedule, from, now, times) && m.dueAt == Last(times) && ReportsSkipped(firstDue, from, times, m)
    case CatchUp =>
      exists times :: AreDue(schedule, from, now, times) && m.dueAt == First(times, policy.maxCatchUp) && ReportsSkipped(firstDue, from, times, m)
  }

  /** Every selected instant lies between the wakeup and now, in order; the next wakeup lies after now. */
  ghost predicate Progresses(schedule: Schedule, firstDue: Time, now: Time, m: Materialized) {
    && IsIncreasing(m.dueAt)
    && (forall i :: 0 <= i < |m.dueAt| ==> firstDue <= m.dueAt[i] <= now)
    && IsNext(schedule, now, m.nextRunAt)
  }

  /** A firing that is due and not older than the window. */
  ghost predicate IsMissed(schedule: Schedule, firstDue: Time, now: Time, window: Time, t: Time) {
    Fires(schedule, t) && firstDue <= t <= now && now - window <= t
  }

  /** Nothing, if nothing was missed, and otherwise the last instant that was. */
  ghost predicate IsLastMissed(schedule: Schedule, firstDue: Time, now: Time, window: Time, dueAt: seq<Time>) {
    if dueAt == [] then forall t :: !IsMissed(schedule, firstDue, now, window, t)
    else
      && |dueAt| == 1 && IsMissed(schedule, firstDue, now, window, dueAt[0])
      && forall t :: IsMissed(schedule, firstDue, now, window, t) ==> t <= dueAt[0]
  }

  /** The first missed instants, all of them if they are at most this many. */
  ghost predicate AreFirstMissed(schedule: Schedule, firstDue: Time, now: Time, window: Time, n: nat, dueAt: seq<Time>) {
    && IsIncreasing(dueAt) && |dueAt| <= n
    && (forall t :: t in dueAt ==> IsMissed(schedule, firstDue, now, window, t))
    && (forall t :: IsMissed(schedule, firstDue, now, window, t) && t !in dueAt ==> |dueAt| == n && forall d :: d in dueAt ==> d < t)
  }

  /** The wakeup is reported when it is older than the window or some missed instant was left out. */
  ghost predicate ReportsWhatIsLeftOut(schedule: Schedule, firstDue: Time, now: Time, window: Time, m: Materialized) {
    && (m.skippedBefore == Some(firstDue) || m.skippedBefore == None)
    && (m.skippedBefore.Some? <==>
        firstDue < now - window || exists t :: IsMissed(schedule, firstDue, now, window, t) && t !in m.dueAt)
  }

  /** What each mode selects and reports, by the instants of the window. */
  ghost predicate SelectsMissed(schedule: Schedule, firstDue: Time, now: Time, policy: MisfirePolicy, m: Materialized) {
    match policy.mode
    case Skip =>
      if firstDue >= now - policy.grace then m.dueAt == [firstDue] && m.skippedBefore == None
      else m.dueAt == [] && m.skippedBefore == Some(firstDue)
    case Latest =>
      && (!schedule.Interval? || Fires(schedule, firstDue) ==> IsLastMissed(schedule, firstDue, now, policy.catchUpWindow, m.dueAt))
      && (!schedule.Interval? ==> ReportsWhatIsLeftOut(schedule, firstDue, now, policy.catchUpWindow, m))
    case CatchUp =>
      && AreFirstMissed(schedule, firstDue, now, policy.catchUpWindow, policy.maxCatchUp, m.dueAt)
      && ReportsWhatIsLeftOut(schedule, firstDue, now, policy.catchUpWindow, m)
  }

  lemma LastIsLastMissed(schedule: Schedule, firstDue: Time, now: Time, policy: MisfirePolicy, times: seq<Time>)
    requires AreDue(schedule, ScanStart(firstDue, now, policy), now, times)
    ensures IsLastMissed(schedule, firstDue, now, policy.catchUpWindow, Last(times))
  {
    hide Fires;
    assert forall t :: t in times <==> IsMissed(schedule, firstDue, now, policy.catchUpWindow, t);
    if times != [] {
      assert times[|times| - 1] in times;
    }
  }

  lemma FirstAreFirstMissed(schedule: Schedule, firstDue: Time, now: Time, policy: MisfirePolicy, times: seq<Time>)
    requires AreDue(schedule, ScanStart(firstDue, now, policy), now, times)
    ensures AreFirstMissed(schedule, firstDue, now, policy.catchUpWindow, policy.maxCatchUp, First(times, policy.maxCatchUp))
  {
    hide Fires;
    assert forall t :: t in times <==> IsMissed(schedule, firstDue, now, policy.catchUpWindow, t);
    var first := First(times, policy.maxCatchUp);
    assert forall t :: t in first ==> t in times;
  }

  /** A selection is shorter than the list exactly when it leaves an instant out. */
  lemma ShorterLeavesOut(schedule: Schedule, firstDue: Time, now: Time, policy: MisfirePolicy, times: seq<Time>, m: Materialized)
    requires AreDue(schedule, ScanStart(firstDue, now, policy), now, times)
    requires m.dueAt == Last(times) || m.dueAt == First(times, policy.maxCatchUp)
    requires ReportsSkipped(firstDue, ScanStart(firstDue, now, policy), times, m)
    ensures ReportsWhatIsLeftOut(schedule, firstDue, now, policy.catchUpWindow, m)
  {
    hide Fires;
    assert forall t :: t in times <==> IsMissed(schedule, firstDue, now, policy.catchUpWindow, t);
    if |times| > |m.dueAt| {
      var left := if m.dueAt == Last(times) then times[0] else times[|times| - 1];
      assert left in times && left !in m.dueAt;
    } else {
      assert m.dueAt == times;
    }
  }

  /** The selection, without the window's start, the list of its instants or its ends. */
  lemma SelectionIsSpelledOut(schedule: Schedule, firstDue: Time, now: Time, policy: MisfirePolicy, m: Materialized)
    requires IsSchedule(schedule) && SelectsDue(schedule, firstDue, now, policy, m)
    ensures SelectsMissed(schedule, firstDue, now, policy, m)
  {
    hide Fires;
    var from := ScanStart(firstDue, now, policy);
    match policy.mode
    case Skip =>
    case Latest =>
      if !schedule.Interval? {
        var times :| AreDue(schedule, from, now, times) && m.dueAt == Last(times) && ReportsSkipped(firstDue, from, times, m);
        LastIsLastMissed(schedule, firstDue, now, policy, times);
        ShorterLeavesOut(schedule, firstDue, now, policy, times, m);
      } else if Fires(schedule, firstDue) {
        var times :| AreDue(schedule, from, now, times) && m.dueAt == Last(times);
        LastIsLastMissed(schedule, firstDue, now, policy, times);
      }
    case CatchUp =>
      var times :| AreDue(schedule, from, now, times) && m.dueAt == First(times, policy.maxCatchUp) && ReportsSkipped(firstDue, from, times, m);
      FirstAreFirstMissed(schedule, firstDue, now, policy, times);
      ShorterLeavesOut(schedule, firstDue, now, policy, times, m);
  }

  /** Apply the policy to one persisted wakeup. */
  method Materialize(schedule: Schedule, nextRunAt: Time, now: Time, policy: MisfirePolicy)
    returns (r: Outcome<Materialized, ScheduleError>)
    requires IsSchedule(schedule) && IsPolicy(policy)
    ensures nextRunAt > now ==> r == Ok(Materialized([], Some(nextRunAt), None))
    ensures nextRunAt <= now && r.Ok? ==>
              && Progresses(schedule, nextRunAt, now, r.value)
              && SelectsDue(schedule, nextRunAt, now, policy, r.value)
              && SelectsMissed(schedule, nextRunAt, now, policy, r.value)
    ensures r == Err(NoRunInRange) ==>
              exists after :: ScanStart(nextRunAt, now, policy) - 1 <= after <= now && NoRunInSearchedYears(schedule, after)
    ensures r == Err(TooManyCandidates) ==>
              exists times :: AreSomeDue(schedule, ScanStart(nextRunAt, now, policy), now, times) && |times| == 100_000
    ensures nextRunAt <= now && r.Ok? && Fires(schedule, nextRunAt) ==> forall t :: t in r.value.dueAt ==> Fires(schedule, t)
  {
    if nextRunAt > now {
      return Ok(Materialized([], Some(nextRunAt), None));
    }
    hide Fires, NoRunInSearchedYears, SelectsMissed;
    var future := NextRunAfter(schedule, now);
    if future.Err? {
      return Err(future.error);
    }
    if policy.mode.Skip? {
      var late := nextRunAt < now - policy.grace;
      return Ok(Materialized(if late then [] else [nextRunAt], future.value, if late then Some(nextRunAt) else None));
    }
    if UsesClosedForm(schedule, policy) {
      var latest := LatestInterval(schedule.every, nextRunAt, now);
      var dueAt := if latest >= now - policy.catchUpWindow then [latest] else [];
      var m := Materialized(dueAt, future.value, if latest != nextRunAt then Some(nextRunAt) else None);
      ClosedFormSelects(schedule, nextRunAt, now, policy, m);
      SelectionIsSpelledOut(schedule, nextRunAt, now, policy, m);
      return Ok(m);
    }
    var scanStart := ScanStart(nextRunAt, now, policy);
    var due := ScanDue(schedule, scanStart, now);
    if due.Err? {
      return Err(due.error);
    }
    SelectionIsDue(schedule, scanStart, now, due.value, policy.maxCatchUp);
    var selected := if policy.mode.Latest? then Last(due.value) else First(due.value, policy.maxCatchUp);
    var skipped := nextRunAt < scanStart || |due.value| > |selected|;
    var m := Materialized(selected, future.value, if skipped then Some(nextRunAt) else None);
    assert ReportsSkipped(nextRunAt, scanStart, due.value, m);
    SelectionIsSpelledOut(schedule, nextRunAt, now, policy, m);
    return Ok(m);
  }

  lemma ClosedFormSelects(schedule: Schedule, firstDue: Time, now: Time, policy: MisfirePolicy, m: Materialized)
    requires IsSchedule(schedule) && IsPolicy(policy) && UsesClosedForm(schedule, policy) && firstDue <= now
    requires IsNext(schedule, now, m.nextRunAt)
    requires m.skippedBefore == ClosedSkipped(schedule.every, firstDue, now)
    requires var latest := LatestInterval(schedule.every, firstDue, now);
             m.dueAt == if latest >= now - policy.catchUpWindow then [latest] else []
    ensures Progresses(schedule, firstDue, now, m) && SelectsDue(schedule, firstDue, now, policy, m)
    ensures Fires(schedule, firstDue) ==> forall t :: t in m.dueAt ==> Fires(schedule, t)
  {
    LatestIsBetween(schedule.every, firstDue, now);
    if Fires(schedule, firstDue) {
      ClosedFormIsScan(schedule.every, schedule.startAt, firstDue, now, policy);
      LatestFires(schedule.every, schedule.startAt, firstDue, now);
    }
    hide IsNext, Fires;
  }

  lemma SelectionIsDue(schedule: Schedule, from: Time, to: Time, times: seq<Time>, n: nat)
    requires AreDue(schedule, from, to, times)
    ensures AreSomeDue(schedule, from, to, Last(times)) && AreSomeDue(schedule, from, to, First(times, n))
    ensures forall i :: 0 <= i < |Last(times)| ==> from <= Last(times)[i] <= to
    ensures forall i :: 0 <= i < |First(times, n)| ==> from <= First(times, n)[i] <= to
  {
    hide Fires;
    assert forall i :: 0 <= i < |times| ==> times[i] in times;
  }

  // ---------------------------------------------------------------- the closed form against the scan

  lemma LatestIsBetween(every: Time, firstDue: Time, now: Time)
    requires every > 0 && firstDue <= now
    ensures firstDue <= LatestInterval(every, firstDue, now) <= now < LatestInterval(every, firstDue, now) + every
  {
    Remainder(now - firstDue, every);
    NonNegativeQuotient(now - firstDue, every);
    NonNegativeProduct((now - firstDue) / every, every);
  }

  lemma NonNegativeProduct(a: int, b: int)
    requires a >= 0 && b >= 0
    ensures a * b >= 0
  {
  }

  /** Whole steps keep an instant on the grid, or off it. */
  lemma StepsKeepGrid(every: Time, startAt: Time, t: Time, n: nat)
    requires every > 0
    ensures (t + n * every - startAt) % every == (t - startAt) % every
  {
    var x := t - startAt;
    Remainder(x, every);
    Distributes(x / every + n, n, every);
    DivisionIsUnique(x + n * every, every, x / every + n, x % every);
  }

  /** From the grid, the closed form is the latest firing. */
  lemma LatestFires(every: Time, startAt: Time, firstDue: Time, now: Time)
    requires every > 0 && Fires(Interval(every, startAt), firstDue) && firstDue <= now
    ensures
      var latest := LatestInterval(every, firstDue, now);
      Fires(Interval(every, startAt), latest) && forall u :: Fires(Interval(every, startAt), u) && u <= now ==> u <= latest
  {
    var latest, n := LatestInterval(every, firstDue, now), (now - firstDue) / every;
    NonNegativeQuotient(now - firstDue, every);
    StepsKeepGrid(every, startAt, firstDue, n);
    LatestIsBetween(every, firstDue, now);
    var k := (latest - startAt) / every;
    Remainder(latest - startAt, every);
    NonNegativeQuotient(latest - startAt, every);
    Distributes(k + 1, k, every);
    forall u | Fires(Interval(every, startAt), u) && u <= now ensures u <= latest {
      NoFiringBetween(every, startAt, k, u);
    }
  }

  /** The due instants of any stretch of time can be listed. */
  lemma {:induction false} DueListExists(schedule: Schedule, from: Time, n: nat) returns (times: seq<Time>)
    ensures AreDue(schedule, from, from + n - 1, times)
  {
    hide Fires;
    times := [];
    if n > 0 {
      var last := from + n - 1;
      var earlier := DueListExists(schedule, from, n - 1);
      assert forall i :: 0 <= i < |earlier| ==> earlier[i] in earlier;
      if Fires(schedule, last) {
        times := earlier + [last];
      } else {
        times := earlier;
      }
    }
  }

  lemma ClosedFormIsScan(every: Time, startAt: Time, firstDue: Time, now: Time, policy: MisfirePolicy)
    requires every > 0 && firstDue <= now && Fires(Interval(every, startAt), firstDue) && IsPolicy(policy)
    ensures
      var latest := LatestInterval(every, firstDue, now);
      exists times ::
        && AreDue(Interval(every, startAt), ScanStart(firstDue, now, policy), now, times)
        && (if latest >= now - policy.catchUpWindow then [latest] else []) == Last(times)
  {
    var schedule, latest := Interval(every, startAt), LatestInterval(every, firstDue, now);
    var from := ScanStart(firstDue, now, policy);
    var times := DueListExists(schedule, from, now - from + 1);
    ClosedFormEqualsScan(every, startAt, firstDue, now, policy, times);
  }

  /** The closed form selects what the scan of the same window selects last. */
  lemma ClosedFormEqualsScan(every: Time, startAt: Time, firstDue: Time, now: Time, policy: MisfirePolicy, times: seq<Time>)
    requires every > 0 && firstDue <= now && Fires(Interval(every, startAt), firstDue)
    requires AreDue(Interval(every, startAt), ScanStart(firstDue, now, policy), now, times)
    ensures
      var latest := LatestInterval(every, firstDue, now);
      (if latest >= now - policy.catchUpWindow then [latest] else []) == Last(times)
  {
    var schedule, latest := Interval(every, startAt), LatestInterval(every, firstDue, now);
    assert times != [] ==> times[0] in times && times[|times| - 1] in times;
    LatestFires(every, startAt, firstDue, now);
    LatestIsBetween(every, firstDue, now);
    hide Fires, LatestInterval;
    if latest >= now - policy.catchUpWindow {
      assert latest in times;
      var i :| 0 <= i < |times| && times[i] == latest;
    }
  }

  /** Off the grid it never does, as long as the window spans an interval. */
  lemma OffGridDiffers(every: Time, startAt: Time, firstDue: Time, now: Time, policy: MisfirePolicy, times: seq<Time>)
    requires every > 0 && startAt <= firstDue <= now && policy.catchUpWindow >= every
    requires !Fires(Interval(every, startAt), firstDue)
    requires AreDue(Interval(every, startAt), ScanStart(firstDue, now, policy), now, times)
    ensures
      var latest := LatestInterval(every, firstDue, now);
      latest >= now - policy.catchUpWindow && [latest] != Last(times)
  {
    var latest := LatestInterval(every, firstDue, now);
    LatestIsBetween(every, firstDue, now);
    NonNegativeQuotient(now - firstDue, every);
    StepsKeepGrid(every, startAt, firstDue, (now - firstDue) / every);
    if times != [] {
      assert times[|times| - 1] in times;
    }
  }

  /** Exactly on the grid the two forms agree on what is due. */
  lemma ClosedFormAgreesExactlyOnTheGrid(every: Time, startAt: Time, firstDue: Time, now: Time, policy: MisfirePolicy, times: seq<Time>)
    requires every > 0 && startAt <= firstDue <= now && policy.catchUpWindow >= every
    requires AreDue(Interval(every, startAt), ScanStart(firstDue, now, policy), now, times)
    ensures
      var latest := LatestInterval(every, firstDue, now);
      (if latest >= now - policy.catchUpWindow then [latest] else []) == Last(times) <==> Fires(Interval(every, startAt), firstDue)
  {
    if Fires(Interval(every, startAt), firstDue) {
      ClosedFormEqualsScan(every, startAt, firstDue, now, policy, times);
    } else {
      OffGridDiffers(every, startAt, firstDue, now, policy, times);
    }
  }

  /** Whatever the window and the wakeup: what the closed form and the scan select, and exactly when it is the same. */
  lemma ClosedFormAgreesExactly(every: Time, startAt: Time, firstDue: Time, now: Time, policy: MisfirePolicy, times: seq<Time>)
    requires every > 0 && firstDue <= now
    requires AreDue(Interval(every, startAt), ScanStart(firstDue, now, policy), now, times)
    ensures
      var latest := LatestInterval(every, firstDue, now);
      (if latest >= now - policy.catchUpWindow then [latest] else []) == Last(times) <==>
      if latest >= now - policy.catchUpWindow then Fires(Interval(every, startAt), latest)
      else NextInterval(every, startAt, ScanStart(firstDue, now, policy) - 1) > now
  {
    var schedule, latest, from := Interval(every, startAt), LatestInterval(every, firstDue, now), ScanStart(firstDue, now, policy);
    assert times != [] ==> times[0] in times && times[|times| - 1] in times;
    LatestIsBetween(every, firstDue, now);
    if latest >= now - policy.catchUpWindow {
      if Fires(schedule, latest) {
        LatestFires(every, startAt, latest, now);
        DivisionIsUnique(now - latest, every, 0, now - latest);
        hide Fires;
        assert latest in times;
        var i :| 0 <= i < |times| && times[i] == latest;
      }
    } else {
      NextIntervalIsNext(every, startAt, from - 1);
      hide Fires;
      assert NextInterval(every, startAt, from - 1) <= now ==> NextInterval(every, startAt, from - 1) in times;
    }
  }

  /** From the anchor on, the closed form stays on the grid or off it with the wakeup. */
  lemma LatestFiresWithWakeup(every: Time, startAt: Time, firstDue: Time, now: Time)
    requires every > 0 && startAt <= firstDue <= now
    ensures Fires(Interval(every, startAt), LatestInterval(every, firstDue, now)) <==> Fires(Interval(every, startAt), firstDue)
  {
    NonNegativeQuotient(now - firstDue, every);
    StepsKeepGrid(every, startAt, firstDue, (now - firstDue) / every);
    LatestIsBetween(every, firstDue, now);
  }

  // ---------------------------------------------------------------- what is reported as skipped

  /** What the closed form reports, and what the scan of the same window would. */
  function ClosedSkipped(every: Time, firstDue: Time, now: Time): Option<Time>
    requires every > 0
  {
    if LatestInterval(every, firstDue, now) != firstDue then Some(firstDue) else None
  }

  function ScanSkipped(firstDue: Time, scanStart: Time, times: seq<Time>): Option<Time> {
    if firstDue < scanStart || |times| > |Last(times)| then Some(firstDue) else None
  }

  lemma LatestMoves(every: Time, firstDue: Time, now: Time)
    requires every > 0 && firstDue <= now
    ensures LatestInterval(every, firstDue, now) != firstDue <==> now >= firstDue + every
  {
    LatestIsBetween(every, firstDue, now);
    if now < firstDue + every {
      DivisionIsUnique(now - firstDue, every, 0, now - firstDue);
    }
  }

  /** Two firings are due exactly when the second one after the wakeup is. */
  lemma TwoAreDue(every: Time, startAt: Time, firstDue: Time, now: Time, times: seq<Time>)
    requires every > 0 && AreDue(Interval(every, startAt), firstDue, now, times)
    ensures |times| > 1 <==> NextInterval(every, startAt, firstDue - 1) + every <= now
  {
    var schedule, first := Interval(every, startAt), NextInterval(every, startAt, firstDue - 1);
    NextIntervalIsNext(every, startAt, firstDue - 1);
    StepsKeepGrid(every, startAt, first, 1);
    var n := (first - startAt) / every;
    Remainder(first - startAt, every);
    NonNegativeQuotient(first - startAt, every);
    Distributes(n + 1, n, every);
    if first + every <= now {
      assert first in times && first + every in times;
      var i, j :| 0 <= i < |times| && 0 <= j < |times| && times[i] == first && times[j] == first + every;
    }
    if |times| > 1 {
      assert times[0] in times && times[1] in times;
      NoFiringBetween(every, startAt, n, times[1]);
    }
  }

  /** For every wakeup, on the grid or off it, the exact condition under which both report the same. */
  lemma SkippedAgreesExactly(every: Time, startAt: Time, firstDue: Time, now: Time, policy: MisfirePolicy, times: seq<Time>)
    requires every > 0 && firstDue <= now
    requires AreDue(Interval(every, startAt), ScanStart(firstDue, now, policy), now, times)
    ensures
      ClosedSkipped(every, firstDue, now) == ScanSkipped(firstDue, ScanStart(firstDue, now, policy), times) <==>
      if firstDue < now - policy.catchUpWindow then LatestInterval(every, firstDue, now) != firstDue
      else now < firstDue + every || now >= NextInterval(every, startAt, firstDue - 1) + every
  {
    hide AreDue;
    LatestMoves(every, firstDue, now);
    if firstDue >= now - policy.catchUpWindow {
      TwoAreDue(every, startAt, firstDue, now, times);
      NextIntervalIsNext(every, startAt, firstDue - 1);
    }
  }

  /** On the grid they differ exactly when the wakeup is the only missed instant and lies outside the window. */
  lemma SkippedAgreesOnTheGrid(every: Time, startAt: Time, firstDue: Time, now: Time, policy: MisfirePolicy, times: seq<Time>)
    requires every > 0 && firstDue <= now && Fires(Interval(every, startAt), firstDue)
    requires AreDue(Interval(every, startAt), ScanStart(firstDue, now, policy), now, times)
    ensures
      ClosedSkipped(every, firstDue, now) == ScanSkipped(firstDue, ScanStart(firstDue, now, policy), times) <==>
      firstDue >= now - policy.catchUpWindow || LatestInterval(every, firstDue, now) != firstDue
  {
    hide AreDue;
    SkippedAgreesExactly(every, startAt, firstDue, now, policy, times);
    NextIntervalIsNext(every, startAt, firstDue - 1);
  }

  /** Such a wakeup: due once, before the window. The closed form reports nothing, the scan the wakeup. */
  lemma SkippedDiffersOutsideTheWindow(every: Time, startAt: Time, now: Time, policy: MisfirePolicy, times: seq<Time>)
    requires every > 0 && startAt <= now < startAt + every && startAt < now - policy.catchUpWindow
    requires AreDue(Interval(every, startAt), ScanStart(startAt, now, policy), now, times)
    ensures ClosedSkipped(every, startAt, now) == None && ScanSkipped(startAt, ScanStart(startAt, now, policy), times) == Some(startAt)
  {
    hide AreDue;
    LatestMoves(every, startAt, now);
  }
}
