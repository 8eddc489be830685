/**
  What the controller guarantees beyond "at most once": which times are started exactly, the concurrency
  policies, the deadline, and when it gets stuck.
 */
module CronGuarantees {
  import opened Options
  import opened CronTime
  import opened CronSchedule
  import opened CronJobs
  import opened CronReconcile
  import opened CronRuns
  import opened CronVerdicts

  // ----- exactly which times are started -----

  /** A job without a deadline that can start pods, under any policy. */
  ghost predicate Steady(job: CronJob) {
    && Sane(job) && Remembers(job) && job.schedule.Some?
    && job.startingDeadline.None? && job.suspend != Some(true)
  }

  function LastStart(job: CronJob, w: World): Instant {
    if w.state.started == [] then job.creation else w.state.started[|w.state.started| - 1]
  }

  /**
    A step on which every call succeeds, with at most 100 points since the last start; and if the policy is Forbid,
    no active pod is listed.
   */
  ghost predicate Smooth(job: CronJob, w: World, env: Env)
    requires job.schedule.Some?
  {
    && env.fetch == Found && env.listing.Some? && env.statusOk && env.buildOk && env.createOk
    && !ReplaceStops(job, env) && !(job.policy == Forbid && SomeActive(env))
    && |Points(job.schedule.value, LastStart(job, w), env.nowPlan)| <= MAX_MISSED
  }

  /** An orderly run whose steps are all smooth. */
  ghost predicate SmoothRun(job: CronJob, ws: seq<World>, es: seq<Event>)
    requires job.schedule.Some?
  {
    IsRun(job, ws, es) && Orderly(job, es) && forall i :: 0 <= i < |es| && es[i].Step? ==> Smooth(job, ws[i], es[i].env)
  }

  /** Some step planned at a time when p was the latest schedule point. */
  ghost predicate HitBy(next: Schedule, plans: seq<Instant>, p: Instant) {
    exists t :: t in plans && p <= t < next(p)
  }

  ghost predicate StartsAreHits(job: CronJob, w: World)
    requires job.schedule.Some?
  {
    forall p :: p in w.state.started
                <==> IsPoint(job.schedule.value, p) && job.creation < p && HitBy(job.schedule.value, w.plans, p)
  }

  ghost predicate SteadyInv(job: CronJob, w: World)
    requires job.schedule.Some?
  {
    Inv(job, w) && UpToDate(job, w)
  }

  /** The starts are the hits so far, and the last of them is remembered. */
  ghost predicate UpToDate(job: CronJob, w: World)
    requires job.schedule.Some?
  {
    && StartsAreHits(job, w)
    && (w.state.started != [] ==> Covered(w.state, LastStart(job, w)))
  }

  /** The pods that are left tell exactly when the last start was. */
  lemma LastScheduledIsLastStart(job: CronJob, w: World, env: Env)
    requires job.schedule.Some? && SteadyInv(job, w) && Allowed(w, env) && env.listing.Some?
    ensures LastScheduled(job, env) == LastStart(job, w)
  {
    var pods := env.listing.value;
    LatestIsMaximum(job.creation, pods);
    forall p | p in pods && ScheduleTime(p).Some? ensures ScheduleTime(p).value <= LastStart(job, w) {
      assert w.state.pods[p.name] == p;
      assert ScheduleTime(p).value in w.state.started;
    }
    if w.state.started != [] {
      var n :| n in w.state.pods && n !in w.state.deleting && ScheduleTime(w.state.pods[n]) == Some(LastStart(job, w));
      assert w.state.pods[n] in pods;
      assert LastStart(job, w) in w.state.started;
    }
  }

  /** So at every step of a smooth run the listed pods tell exactly when the last start was. */
  lemma SurvivorsTellLastStart(job: CronJob, ws: seq<World>, es: seq<Event>, i: nat)
    requires Steady(job) && SmoothRun(job, ws, es) && i < |es| && es[i].Step?
    ensures LastScheduled(job, es[i].env) == LastStart(job, ws[i])
  {
    SmoothRunKeeps(job, ws, es, i);
    assert Happens(job, ws[i], es[i]);
    LastScheduledIsLastStart(job, ws[i], es[i].env);
  }

  /** Two points p <= q <= t with t before Next(p) are the same. */
  lemma SamePoint(next: Schedule, p: Instant, q: Instant, t: Instant)
    requires Lawful(next) && IsPoint(next, q) && p <= q <= t < next(p)
    ensures p == q
  {
    NextIsLeastPoint(next, p);
  }

  lemma SmoothStepKeeps(job: CronJob, w: World, env: Env, sweep: Sweep)
    requires Steady(job) && SteadyInv(job, w) && Smooth(job, w, env)
    requires Allowed(w, env) && Sweeps(job, env, sweep) && OrderKept(job, env)
    ensures SteadyInv(job, After(job, w, Step(env, sweep)))
  {
    StepKeepsInv(job, w, env, sweep);
    SmoothDecision(job, w, env);
    if Decide(job, env).Idle? {
      SmoothIdle(job, w, env, sweep);
    } else {
      SmoothCreate(job, w, env, sweep);
    }
  }

  /** A smooth step creates a pod, unless nothing is due. */
  lemma SmoothDecision(job: CronJob, w: World, env: Env)
    requires Steady(job) && SteadyInv(job, w) && Smooth(job, w, env) && Allowed(w, env)
    ensures Decide(job, env).Idle? || Decide(job, env).Created?
    ensures Decide(job, env).Idle? ==> Points(job.schedule.value, LastStart(job, w), env.nowPlan) == {}
  {
    LastScheduledIsLastStart(job, w, env);
    MissedAreAhead(job, env);
    PlanMeaning(job, env);
    VerdictWithoutRun(job, env);
    if Missed(job, env) != {} {
      VerdictOnRun(job, env, Plan(job, env).missed);
    }
  }

  lemma SmoothIdle(job: CronJob, w: World, env: Env, sweep: Sweep)
    requires Steady(job) && SteadyInv(job, w) && Allowed(w, env) && Sweeps(job, env, sweep) && OrderKept(job, env)
    requires Decide(job, env).Idle? && Points(job.schedule.value, LastStart(job, w), env.nowPlan) == {}
    ensures UpToDate(job, After(job, w, Step(env, sweep)))
  {
    var w' := After(job, w, Step(env, sweep));
    EffectShape(job, env, w.state, sweep);
    IdleHits(job, w, env.nowPlan, w');
    if w.state.started != [] {
      IdleCovers(job, w, env, sweep);
    }
  }

  lemma IdleCovers(job: CronJob, w: World, env: Env, sweep: Sweep)
    requires Remembers(job) && Inv(job, w) && Allowed(w, env) && Sweeps(job, env, sweep) && OrderKept(job, env)
    requires Decide(job, env).Idle? && w.state.started != [] && Covered(w.state, LastStart(job, w))
    ensures Covered(Effect(job, env, w.state, sweep), LastStart(job, w))
  {
    EffectShape(job, env, w.state, sweep);
    var s' := Effect(job, env, w.state, sweep);
    var n :| n in w.state.pods && n !in w.state.deleting && ScheduleTime(w.state.pods[n]) == Some(LastStart(job, w));
    LastStartKept(job, w, env, sweep, n);
    assert n in s'.pods && n !in s'.deleting;
  }

  lemma SmoothCreate(job: CronJob, w: World, env: Env, sweep: Sweep)
    requires Steady(job) && SteadyInv(job, w) && Allowed(w, env) && Sweeps(job, env, sweep)
    requires Decide(job, env).Created?
    ensures UpToDate(job, After(job, w, Step(env, sweep)))
  {
    var w', m := After(job, w, Step(env, sweep)), Plan(job, env).missed;
    PassedHasPlan(job, env);
    PlannedRun(job, w, env);
    EffectShape(job, env, w.state, sweep);
    StartHits(job, w, m, env.nowPlan, w');
    ScheduleTimeRoundTrip(job, m, w.state.nextName);
    var n := w.state.nextName;
    assert n !in w.state.pods;
    assert n in w'.state.pods && n !in w'.state.deleting && ScheduleTime(w'.state.pods[n]) == Some(m);
  }

  /** A step with nothing due adds no hit. */
  lemma IdleHits(job: CronJob, w: World, t: Instant, w': World)
    requires w'.plans == w.plans + [t] && w'.state.started == w.state.started
    requires Steady(job) && SteadyInv(job, w) && w.now <= t && Points(job.schedule.value, LastStart(job, w), t) == {}
    ensures StartsAreHits(job, w')
  {
    var next, last := job.schedule.value, LastStart(job, w);
    forall p | IsPoint(next, p) && job.creation < p
      ensures HitBy(next, w.plans + [t], p) <==> HitBy(next, w.plans, p)
    {
      if p <= t < next(p) {
        assert p in Points(next, last, t) || p <= last;
        assert last in w.state.started;
        SamePoint(next, p, last, t);
      }
      HitGrows(next, w.plans, t, p);
    }
  }

  /** A step that starts m adds exactly the hit m. */
  lemma StartHits(job: CronJob, w: World, m: Instant, t: Instant, w': World)
    requires w'.plans == w.plans + [t] && w'.state.started == w.state.started + [m]
    requires Steady(job) && SteadyInv(job, w) && job.creation < m <= t && IsPoint(job.schedule.value, m)
    requires forall p :: p <= t && IsPoint(job.schedule.value, p) ==> p <= m
    ensures StartsAreHits(job, w')
  {
    var next := job.schedule.value;
    NextIsLeastPoint(next, m);
    forall p | IsPoint(next, p) && job.creation < p
      ensures HitBy(next, w.plans + [t], p) <==> HitBy(next, w.plans, p) || p == m
    {
      if p <= t < next(p) {
        SamePoint(next, p, m, t);
      }
      HitGrows(next, w.plans, t, p);
    }
    forall p | p in w.state.started + [m] ensures IsPoint(next, p) && job.creation < p && (p in w.state.started || p == m) {
    }
  }

  lemma HitGrows(next: Schedule, plans: seq<Instant>, t: Instant, p: Instant)
    ensures HitBy(next, plans + [t], p) <==> HitBy(next, plans, p) || p <= t < next(p)
  {
    assert t in plans + [t];
    if HitBy(next, plans, p) {
      var u :| u in plans && p <= u < next(p);
      assert u in plans + [t];
    }
  }

  lemma {:induction false} SmoothRunKeeps(job: CronJob, ws: seq<World>, es: seq<Event>, i: nat)
    requires Steady(job) && SmoothRun(job, ws, es) && i < |ws|
    ensures SteadyInv(job, ws[i])
  {
    if i > 0 {
      var w, e := ws[i - 1], es[i - 1];
      SmoothRunKeeps(job, ws, es, i - 1);
      EventKeepsInv(job, w, e);
      match e {
        case Step(env, sweep) => SmoothStepKeeps(job, w, env, sweep);
        case _ => StaysUpToDate(job, w, e);
      }
    }
  }

  lemma StaysUpToDate(job: CronJob, w: World, e: Event)
    requires job.schedule.Some? && SteadyInv(job, w) && Happens(job, w, e) && !e.Step?
    ensures UpToDate(job, After(job, w, e))
  {
    var w' := After(job, w, e);
    assert w'.plans == w.plans && w'.state.started == w.state.started;
    if w.state.started != [] {
      var n :| n in w.state.pods && n !in w.state.deleting && ScheduleTime(w.state.pods[n]) == Some(LastStart(job, w));
      assert n in w'.state.pods && n !in w'.state.deleting
             && ScheduleTime(w'.state.pods[n]) == ScheduleTime(w.state.pods[n]);
    }
  }

  /**
    On smooth orderly runs of a steady job, a schedule point after the creation is started if and only if some step
    looked at the clock between that point and the next one. Points that no step landed on are skipped.
   */
  lemma StartedExactly(job: CronJob, ws: seq<World>, es: seq<Event>, i: nat, p: Instant)
    requires Steady(job) && SmoothRun(job, ws, es) && i < |ws|
    ensures Increasing(ws[i].state.started)
    ensures p in ws[i].state.started
            <==> IsPoint(job.schedule.value, p) && job.creation < p && HitBy(job.schedule.value, ws[i].plans, p)
  {
    SmoothRunKeeps(job, ws, es, i);
  }

  /** The time of the wake-up before wake-up k; the creation counts as the first. */
  function Before(creation: Instant, plans: seq<Instant>, k: nat): Instant
    requires k <= |plans|
  {
    if k == 0 then creation else plans[k - 1]
  }

  /** Each wake-up comes before the second point after the previous one. */
  ghost predicate Prompt(next: Schedule, creation: Instant, plans: seq<Instant>) {
    forall k {:trigger Before(creation, plans, k)} :: 0 <= k < |plans| ==> plans[k] < next(next(Before(creation, plans, k)))
  }

  lemma {:induction false} PromptHitsAll(next: Schedule, creation: Instant, plans: seq<Instant>, p: Instant)
    requires Lawful(next) && Prompt(next, creation, plans) && IsPoint(next, p) && creation < p
    requires |plans| > 0 && p <= plans[|plans| - 1]
    ensures HitBy(next, plans, p)
  {
    var n := |plans| - 1;
    var t, prev := plans[n], Before(creation, plans, n);
    if prev < p {
      NextIsLeastPoint(next, prev);
      NextIsLeastPoint(next, next(prev));
      assert t < next(next(prev));
      assert p == next(prev);
      assert t in plans;
    } else {
      assert forall k :: 0 <= k < n ==> Before(creation, plans[..n], k) == Before(creation, plans, k);
      PromptHitsAll(next, creation, plans[..n], p);
      var u :| u in plans[..n] && p <= u < next(p);
      assert u in plans;
    }
  }

  /** The clock readings of a run do not go backwards. */
  lemma {:induction false} PlansInOrder(job: CronJob, ws: seq<World>, es: seq<Event>, i: nat)
    requires IsRun(job, ws, es) && i < |ws|
    ensures forall j, k :: 0 <= j < k < |ws[i].plans| ==> ws[i].plans[j] <= ws[i].plans[k]
    ensures forall k :: 0 <= k < |ws[i].plans| ==> ws[i].plans[k] <= ws[i].now
  {
    if i > 0 {
      PlansInOrder(job, ws, es, i - 1);
      var w, w' := ws[i - 1], ws[i];
      assert Happens(job, w, es[i - 1]) && w' == After(job, w, es[i - 1]);
      assert w.now <= w'.now && (w'.plans == w.plans || (exists t :: w'.plans == w.plans + [t] && w.now <= t <= w'.now));
    }
  }

  /** Exactly one start for every schedule point up to the last wake-up, if every wake-up is prompt. */
  lemma ExactlyOnce(job: CronJob, ws: seq<World>, es: seq<Event>, i: nat, p: Instant)
    requires Steady(job) && SmoothRun(job, ws, es) && i < |ws| && |ws[i].plans| > 0
    requires Prompt(job.schedule.value, job.creation, ws[i].plans)
    ensures Increasing(ws[i].state.started)
    ensures p in ws[i].state.started
            <==> p in Points(job.schedule.value, job.creation, ws[i].plans[|ws[i].plans| - 1])
  {
    var next, plans := job.schedule.value, ws[i].plans;
    StartedExactly(job, ws, es, i, p);
    PlansInOrder(job, ws, es, i);
    if p in Points(next, job.creation, plans[|plans| - 1]) {
      PromptHitsAll(next, job.creation, plans, p);
    }
  }

  // ----- concurrency policies -----

  ghost predicate NamesKnown(s: State) {
    s.deleting <= s.pods.Keys && forall n {:trigger s.pods[n]} :: n in s.pods ==> s.pods[n].name == n && n < s.nextName
  }

  ghost predicate AtMostOneActive(s: State) {
    forall a, b {:trigger s.pods[a], s.pods[b]} ::
      a in s.pods && b in s.pods && IsActive(s.pods[a]) && IsActive(s.pods[b]) ==> a == b
  }

  lemma ForbidStep(job: CronJob, w: World, e: Event)
    requires job.policy == Forbid && Happens(job, w, e) && NamesKnown(w.state) && AtMostOneActive(w.state)
    ensures NamesKnown(After(job, w, e).state) && AtMostOneActive(After(job, w, e).state)
  {
    var s' := After(job, w, e).state;
    match e {
      case Step(env, sweep) =>
        EffectShape(job, env, w.state, sweep);
        if Creates(Decide(job, env), env) {
          NoneActive(job, w, env);
        }
      case Progress(_, _, _) =>
      case Vanish(_) =>
      case Tick(_) =>
    }
  }

  lemma NoneActive(job: CronJob, w: World, env: Env)
    requires job.policy == Forbid && Allowed(w, env) && Creates(Decide(job, env), env) && NamesKnown(w.state)
    ensures forall n {:trigger w.state.pods[n]} :: n in w.state.pods ==> !IsActive(w.state.pods[n])
  {
    Selected(env.listing.value, ActiveClass);
    forall n | n in w.state.pods ensures !IsActive(w.state.pods[n]) {
      assert w.state.pods[n] in env.listing.value;
      assert w.state.pods[n] in Listed(env, ActiveClass) <==> IsActive(w.state.pods[n]);
    }
  }

  /** Under Forbid no reachable state ever has two active pods. */
  lemma {:induction false} ForbidAllowsOne(job: CronJob, ws: seq<World>, es: seq<Event>, i: nat)
    requires job.policy == Forbid && IsRun(job, ws, es) && i < |ws|
    ensures NamesKnown(ws[i].state) && AtMostOneActive(ws[i].state)
  {
    if i > 0 {
      ForbidAllowsOne(job, ws, es, i - 1);
      ForbidStep(job, ws[i - 1], es[i - 1]);
    }
  }

  /** Under Replace, after a step that created a pod and whose deletes took effect, that pod is the only active one left. */
  lemma ReplaceLeavesOne(job: CronJob, w: World, env: Env, sweep: Sweep)
    requires job.policy == Replace && NamesKnown(w.state) && Allowed(w, env) && Sweeps(job, env, sweep)
    requires Decide(job, env).Created? && env.lost == {}
    ensures var s' := Effect(job, env, w.state, sweep);
            forall n :: n in s'.pods && IsActive(s'.pods[n]) && n !in s'.deleting <==> n == w.state.nextName
  {
    EffectShape(job, env, w.state, sweep);
    ActivesReplaced(job, w, env, sweep);
  }

  lemma ActivesReplaced(job: CronJob, w: World, env: Env, sweep: Sweep)
    requires job.policy == Replace && NamesKnown(w.state) && Allowed(w, env)
    requires Decide(job, env).Created? && env.lost == {}
    ensures forall n :: n in w.state.pods && IsActive(w.state.pods[n]) ==> n in Effect(job, env, w.state, sweep).deleting
  {
    var active := Listed(env, ActiveClass);
    Selected(env.listing.value, ActiveClass);
    assert active[..|active|] == active;
    forall n | n in w.state.pods && IsActive(w.state.pods[n]) ensures n in Effect(job, env, w.state, sweep).deleting {
      assert w.state.pods[n] in env.listing.value;
      assert w.state.pods[n] in active;
      assert n in Replaced(job, env);
    }
  }

  // ----- the deadline -----

  /**
    A pod is created only for a run whose start time plus the deadline has not passed when the clock is read
    last, for every deadline of zero or more seconds, even one whose product with a second overflows.
   */
  lemma CreatedWithinDeadline(job: CronJob, w: World, env: Env, deadline: nat)
    requires Sane(job) && Allowed(w, env) && job.startingDeadline == Some(deadline)
    requires Creates(Decide(job, env), env)
    ensures env.nowDeadline <= Plan(job, env).missed + SECOND * deadline
  {
  }

  /** The deadline check after planning can only fire if the clock has moved since planning. */
  lemma TooLateMeansClockMoved(job: CronJob, w: World, env: Env, deadline: nat)
    requires Sane(job) && Allowed(w, env) && job.startingDeadline == Some(deadline)
    requires Wrap64(SECOND * deadline) != MIN_INT64 && Decide(job, env).TooLate?
    ensures env.nowPlan < env.nowDeadline
  {
    WrapBounds(SECOND * deadline);
    assert -(SECOND * deadline) == -SECOND * deadline;
    LatestIsMaximum(job.creation, env.listing.value);
    var earliest := EarliestTime(job.creation, Some(LastScheduled(job, env)), job.startingDeadline, env.nowPlan);
    NextRunMeaning(job.schedule.value, earliest, env.nowPlan);
  }

  // ----- too many missed jobs -----

  /** Pods only disappear; the ones left are for the same times. */
  ghost predicate Shrunk(s: State, s': State) {
    forall n {:trigger s'.pods[n]} :: n in s'.pods ==> n in s.pods && ScheduleTime(s'.pods[n]) == ScheduleTime(s.pods[n])
  }

  ghost predicate Wedged(job: CronJob, env: Env) {
    env.listing.Some? && Plan(job, env) == TooManyMissed
  }

  lemma StillTooMany(job: CronJob, w: World, env: Env, w': World, env': Env)
    requires Sane(job) && job.schedule.Some? && job.startingDeadline.None?
    requires Allowed(w, env) && Wedged(job, env) && NamesKnown(w.state)
    requires Allowed(w', env') && env'.listing.Some? && NamesKnown(w'.state)
    requires Shrunk(w.state, w'.state) && env.nowPlan <= env'.nowPlan
    ensures Wedged(job, env')
  {
    var next := job.schedule.value;
    var last, last' := LastScheduled(job, env), LastScheduled(job, env');
    LatestIsMaximum(job.creation, env.listing.value);
    LatestIsMaximum(job.creation, env'.listing.value);
    assert last' <= last by {
      if last' != job.creation {
        var p :| p in env'.listing.value && ScheduleTime(p) == Some(last');
        assert w'.state.pods[p.name] == p;
        assert w.state.pods[p.name] in env.listing.value;
      }
    }
    NextRunMeaning(next, last, env.nowPlan);
    NextRunMeaning(next, last', env'.nowPlan);
    PointsNested(next, last, env.nowPlan, last', env'.nowPlan);
  }

  lemma NamesStayKnown(job: CronJob, w: World, e: Event)
    requires NamesKnown(w.state) && Happens(job, w, e)
    ensures NamesKnown(After(job, w, e).state)
  {
  }

  /** Since the controller gave up in w0 on what env0 showed it, pods have only disappeared and time has gone on. */
  ghost predicate Stuck(w0: World, env0: Env, w: World) {
    NamesKnown(w.state) && Shrunk(w0.state, w.state) && env0.nowPlan <= w.now
  }

  /** A step that plans nothing leaves no new pod behind. */
  lemma NoPlanNoPod(job: CronJob, w: World, e: Event)
    requires Happens(job, w, e) && (e.Step? && e.env.listing.Some? ==> Wedged(job, e.env))
    ensures Shrunk(w.state, After(job, w, e).state)
  {
  }

  lemma StaysStuck(job: CronJob, w0: World, env0: Env, w: World, e: Event)
    requires Sane(job) && job.schedule.Some? && job.startingDeadline.None?
    requires NamesKnown(w0.state) && Allowed(w0, env0) && Wedged(job, env0)
    requires Stuck(w0, env0, w) && Happens(job, w, e)
    ensures Stuck(w0, env0, After(job, w, e))
  {
    if e.Step? && e.env.listing.Some? {
      StillTooMany(job, w0, env0, w, e.env);
    }
    NoPlanNoPod(job, w, e);
    NamesStayKnown(job, w, e);
  }

  lemma {:induction false} StuckRun(job: CronJob, ws: seq<World>, es: seq<Event>, i: nat, j: nat)
    requires Sane(job) && job.schedule.Some? && job.startingDeadline.None? && IsRun(job, ws, es)
    requires i < j < |ws| && es[i].Step? && Wedged(job, es[i].env) && NamesKnown(ws[i].state)
    ensures Stuck(ws[i], es[i].env, ws[j])
    decreases j
  {
    if i < j - 1 {
      StuckRun(job, ws, es, i, j - 1);
      StaysStuck(job, ws[i], es[i].env, ws[j - 1], es[j - 1]);
    } else {
      NoPlanNoPod(job, ws[i], es[i]);
      NamesStayKnown(job, ws[i], es[i]);
    }
  }

  lemma {:induction false} NamesKnownInRun(job: CronJob, ws: seq<World>, es: seq<Event>, i: nat)
    requires IsRun(job, ws, es) && i < |ws|
    ensures NamesKnown(ws[i].state)
  {
    if i > 0 {
      NamesKnownInRun(job, ws, es, i - 1);
      NamesStayKnown(job, ws[i - 1], es[i - 1]);
    }
  }

  /** Without a deadline, a controller that gives up once gives up for ever: every later step finds too many missed jobs. */
  lemma WedgedForEver(job: CronJob, ws: seq<World>, es: seq<Event>, i: nat, j: nat)
    requires Sane(job) && job.schedule.Some? && job.startingDeadline.None? && IsRun(job, ws, es)
    requires i < j < |es| && es[i].Step? && Wedged(job, es[i].env) && es[j].Step? && es[j].env.listing.Some?
    ensures Wedged(job, es[j].env) && !Creates(Decide(job, es[j].env), es[j].env)
  {
    NamesKnownInRun(job, ws, es, i);
    StuckRun(job, ws, es, i, j);
    StillTooMany(job, ws[i], es[i].env, ws[j], es[j].env);
  }

  /** A deadline whose window never holds more than 100 points keeps the controller from giving up. */
  lemma DeadlinePreventsWedge(job: CronJob, env: Env, deadline: nat)
    requires Sane(job) && job.schedule.Some? && env.listing.Some?
    requires job.startingDeadline == Some(deadline) && SECOND * deadline <= MAX_INT64
    requires |Points(job.schedule.value, env.nowPlan - SECOND * deadline, env.nowPlan)| <= MAX_MISSED
    ensures !Wedged(job, env)
  {
    var last := LastScheduled(job, env);
    LatestIsMaximum(job.creation, env.listing.value);
    var earliest := EarliestTime(job.creation, Some(last), job.startingDeadline, env.nowPlan);
    assert -SECOND * deadline == -(SECOND * deadline);
    NextRunMeaning(job.schedule.value, earliest, env.nowPlan);
    PointsNested(job.schedule.value, earliest, env.nowPlan, env.nowPlan - SECOND * deadline, env.nowPlan);
  }
}
