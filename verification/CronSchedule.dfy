/**
  When should the job run? The walk over missed start times, and what it computes.
 */
module CronSchedule {
  import opened Options
  import opened CronTime

  /** Starts that may be missed before the controller gives up. */
  const MAX_MISSED := 100

  datatype NextTimes = Times(missed: Instant, upcoming: Instant) | BadSchedule | TooManyMissed

  /** The earliest time to consider: the last run or the creation, but not before the deadline window. */
  function EarliestTime(creation: Instant, last: Option<Instant>, deadline: Option<int>, now: Instant): Instant {
    var base := if last.Some? then last.value else creation;
    if deadline.Some? && now + Wrap64(-SECOND * deadline.value) > base then now + Wrap64(-SECOND * deadline.value) else base
  }

  /** Walking the schedule from candidate t, having passed `last`, with a budget of further starts to pass. */
  function Walk(next: Schedule, t: Instant, last: Instant, budget: nat, now: Instant): Option<Instant>
    decreases budget
  {
    if t > now then Some(last)
    else if budget == 0 then None
    else Walk(next, next(t), t, budget - 1, now)
  }

  /** The specification of `getNextScheduledTime`, for any Next function at all. */
  function NextRun(schedule: Option<Schedule>, earliest: Instant, now: Instant): NextTimes {
    if schedule.None? then BadSchedule
    else
      var next := schedule.value;
      if earliest > now then Times(ZERO_TIME, next(now))
      else
        match Walk(next, next(earliest), ZERO_TIME, MAX_MISSED, now)
        case None => TooManyMissed
        case Some(missed) => Times(missed, next(now))
  }

  /** At most 101 rounds, even for a Next function that does not advance. */
  method GetNextScheduledTime(schedule: Option<Schedule>, creation: Instant, last: Option<Instant>,
                              deadline: Option<int>, now: Instant) returns (r: NextTimes)
    ensures r == NextRun(schedule, EarliestTime(creation, last, deadline, now), now)
  {
    if schedule.None? {
      return BadSchedule;
    }
    var next := schedule.value;
    var earliest := creation;
    if last.Some? {
      earliest := last.value;
    }
    if deadline.Some? {
      var schedulingDeadline := now + Wrap64(-SECOND * deadline.value);
      if schedulingDeadline > earliest {
        earliest := schedulingDeadline;
      }
    }
    if earliest > now {
      return Times(ZERO_TIME, next(now));
    }
    var lastMissed, missingJobs, t := ZERO_TIME, 0, next(earliest);
    while t <= now
      invariant 0 <= missingJobs <= MAX_MISSED
      invariant Walk(next, next(earliest), ZERO_TIME, MAX_MISSED, now)
                == Walk(next, t, lastMissed, MAX_MISSED - missingJobs, now)
      decreases MAX_MISSED + 1 - missingJobs
    {
      lastMissed := t;
      missingJobs := missingJobs + 1;
      if missingJobs > MAX_MISSED {
        return TooManyMissed;
      }
      t := next(t);
    }
    return Times(lastMissed, next(now));
  }

  /** p is the greatest schedule point in (lo, hi]. */
  ghost predicate IsGreatest(next: Schedule, p: Instant, lo: Instant, hi: Instant) {
    p in Points(next, lo, hi) && forall q :: q in Points(next, lo, hi) ==> q <= p
  }

  /** The walk, in terms of the set of points still ahead of it. */
  lemma {:induction false} WalkMeaning(next: Schedule, lo: Instant, last: Instant, budget: nat, now: Instant)
    requires Lawful(next)
    ensures var r := Walk(next, next(lo), last, budget, now);
            && (r.None? <==> |Points(next, lo, now)| > budget)
            && (r.Some? && Points(next, lo, now) == {} ==> r.value == last)
            && (r.Some? && Points(next, lo, now) != {} ==> IsGreatest(next, r.value, lo, now))
    decreases budget
  {
    PointsStep(next, lo, now);
    if next(lo) <= now {
      var p := next(lo);
      assert |Points(next, lo, now)| == 1 + |Points(next, p, now)|;
      if budget > 0 {
        WalkMeaning(next, p, p, budget - 1, now);
      }
    }
  }

  /**
    For a lawful schedule: an error exactly when more than 100 points lie in (earliest, now]; otherwise the
    greatest point there (zero if there is none) and the least point after now.
   */
  lemma NextRunMeaning(next: Schedule, earliest: Instant, now: Instant)
    requires Lawful(next) && earliest >= ZERO_TIME
    ensures var r := NextRun(Some(next), earliest, now);
            && !r.BadSchedule?
            && (r.TooManyMissed? <==> |Points(next, earliest, now)| > MAX_MISSED)
            && (r.Times? ==> (r.missed == ZERO_TIME <==> Points(next, earliest, now) == {}))
            && (r.Times? && r.missed != ZERO_TIME ==> IsGreatest(next, r.missed, earliest, now))
            && (r.Times? ==> now < r.upcoming && IsPoint(next, r.upcoming)
                             && forall p :: now < p && IsPoint(next, p) ==> r.upcoming <= p)
  {
    NextIsLeastPoint(next, now);
    if earliest <= now {
      WalkMeaning(next, earliest, ZERO_TIME, MAX_MISSED, now);
    } else {
      assert Points(next, earliest, now) == {};
    }
  }

  /** A schedule that can never fire (Next answers with the zero time) is reported as too many missed jobs. */
  lemma DriedUpSchedule(next: Schedule, earliest: Instant, now: Instant)
    requires forall t :: next(t) == ZERO_TIME
    requires ZERO_TIME <= earliest <= now
    ensures NextRun(Some(next), earliest, now) == TooManyMissed
  {
    StuckWalk(next, ZERO_TIME, MAX_MISSED, now);
  }

  lemma {:induction false} StuckWalk(next: Schedule, last: Instant, budget: nat, now: Instant)
    requires forall t :: next(t) == ZERO_TIME
    requires ZERO_TIME <= now
    ensures Walk(next, ZERO_TIME, last, budget, now) == None
    decreases budget
  {
    if budget > 0 {
      StuckWalk(next, ZERO_TIME, budget - 1, now);
    }
  }
}
