/**
  Runs of the CronJob controller: reconcile steps at any times, while pods make progress, disappear after
  their deletion, and the clock goes on. The controller remembers nothing between steps; what it knows
  about the past is read off the pods that are left.
 */
module CronRuns {
  import opened Options
  import opened CronTime
  import opened CronSchedule
  import opened CronJobs
  import opened CronHistory
  import opened CronReconcile

  datatype World = World(
    state: State,
    now: Instant,
    plans: seq<Instant>)     // history: the clock readings for which a reconcile step planned a run

  datatype Event =
    | Step(env: Env, sweep: Sweep)
    | Progress(name: nat, phase: PodPhase, startTime: Option<Instant>)
    | Vanish(name: nat)
    | Tick(now: Instant)

  function Initial(job: CronJob): World {
    World(State(map[], {}, 0, Status([], None), []), job.creation, [])
  }

  /** The listing shows exactly the pods there are. */
  ghost predicate Fresh(listing: seq<Pod>, s: State) {
    && DistinctNames(listing)
    && (forall p :: p in listing <==> p.name in s.pods && s.pods[p.name] == p)
  }

  /** The clock does not run backwards. */
  predicate ClockOn(w: World, env: Env) {
    w.now <= env.nowPlan <= env.nowRequeue <= env.nowDeadline
  }

  /** What a step may find: a fresh listing, or none. */
  ghost predicate Allowed(w: World, env: Env) {
    (env.listing.Some? ==> Fresh(env.listing.value, w.state)) && ClockOn(w, env)
  }

  function After(job: CronJob, w: World, e: Event): World {
    match e
    case Step(env, sweep) =>
      World(Effect(job, env, w.state, sweep), env.nowDeadline,
            if Planned(Decide(job, env)) then w.plans + [env.nowPlan] else w.plans)
    case Progress(name, phase, startTime) =>
      if name in w.state.pods
      then w.(state := w.state.(pods := w.state.pods[name := w.state.pods[name].(phase := phase, startTime := startTime)]))
      else w
    case Vanish(name) =>
      w.(state := w.state.(pods := w.state.pods - {name}, deleting := w.state.deleting - {name}))
    case Tick(now) => w.(now := now)
  }

  ghost predicate Happens(job: CronJob, w: World, e: Event) {
    match e
    case Step(env, sweep) => Allowed(w, env) && Sweeps(job, env, sweep)
    case Progress(name, phase, startTime) =>
      // A finished pod stays finished.
      name in w.state.pods && (!IsActive(w.state.pods[name]) ==> phase == w.state.pods[name].phase)
    case Vanish(name) => name in w.state.deleting
    case Tick(now) => w.now <= now
  }

  ghost predicate IsRun(job: CronJob, ws: seq<World>, es: seq<Event>) {
    && |ws| == |es| + 1
    && ws[0] == Initial(job)
    && (forall i :: 0 <= i < |es| ==> Happens(job, ws[i], es[i]) && ws[i + 1] == After(job, ws[i], es[i]))
  }

  /** Among the listed pods of a class, the one scheduled later comes later in the history order. */
  ghost predicate StartOrderAgrees(env: Env, c: Class) {
    env.listing.Some? ==>
      forall p, q :: p in env.listing.value && q in env.listing.value && InClass(p, c) && InClass(q, c)
                     && ScheduleTime(p).Some? && ScheduleTime(q).Some? && ScheduleTime(p).value < ScheduleTime(q).value
                     ==> Less(p, q)
  }

  /** Whether finished pods are ever cleaned up. */
  predicate HasLimit(job: CronJob) {
    job.failedLimit.Some? || job.succeededLimit.Some?
  }

  ghost predicate OrderKept(job: CronJob, env: Env) {
    && (job.failedLimit.Some? ==> StartOrderAgrees(env, FailedClass))
    && (job.succeededLimit.Some? ==> StartOrderAgrees(env, SucceededClass))
  }

  /** An orderly run: every listing shows the finished pods of each class with a limit started in schedule order. */
  ghost predicate Orderly(job: CronJob, es: seq<Event>) {
    forall i :: 0 <= i < |es| && es[i].Step? ==> OrderKept(job, es[i].env)
  }

  /** No limit, or one that leaves at least one pod of the class. */
  predicate LimitRemembers(limit: Option<int>) {
    limit.Some? ==> limit.value >= 2
  }

  predicate Remembers(job: CronJob) {
    LimitRemembers(job.failedLimit) && LimitRemembers(job.succeededLimit)
  }

  /** The job's schedule, if it is a lawful one and the creation time makes sense. */
  ghost predicate Sane(job: CronJob) {
    job.creation >= ZERO_TIME && (job.schedule.Some? ==> Lawful(job.schedule.value))
  }

  // ----- what holds in every reachable world -----

  /** Every pod is one that this controller created, for a time that is in the history. */
  ghost predicate PodsExplained(s: State) {
    && s.deleting <= s.pods.Keys
    && forall n {:trigger s.pods[n]} :: n in s.pods ==>
      && n < s.nextName && s.pods[n].name == n
      && ScheduleTime(s.pods[n]).Some? && ScheduleTime(s.pods[n]).value in s.started
  }

  /** No two pods are for the same time. */
  ghost predicate TimesDistinct(s: State) {
    forall a, b {:trigger s.pods[a], s.pods[b]} ::
      a in s.pods && b in s.pods && ScheduleTime(s.pods[a]) == ScheduleTime(s.pods[b]) ==> a == b
  }

  ghost predicate Increasing(times: seq<Instant>) {
    forall i, j :: 0 <= i < j < |times| ==> times[i] < times[j]
  }

  ghost predicate StartsAreDue(job: CronJob, w: World) {
    forall p :: p in w.state.started ==>
      job.creation < p <= w.now && job.schedule.Some? && IsPoint(job.schedule.value, p)
  }

  /** Some pod that is not about to go remembers time t. */
  ghost predicate Covered(s: State, t: Instant) {
    exists n :: n in s.pods && n !in s.deleting && ScheduleTime(s.pods[n]) == Some(t)
  }

  /** A schedule point after t has come up by now. */
  ghost predicate Overtaken(job: CronJob, t: Instant, now: Instant) {
    job.schedule.Some? && job.schedule.value(t) <= now
  }

  /** The last start is either remembered by a pod, or too old to be missed again: a later point has come up. */
  ghost predicate LastStartSafe(job: CronJob, w: World) {
    w.state.started != [] ==>
      var last := w.state.started[|w.state.started| - 1];
      Covered(w.state, last) || Overtaken(job, last, w.now)
  }

  ghost predicate Inv(job: CronJob, w: World) {
    && PodsExplained(w.state)
    && TimesDistinct(w.state)
    && Increasing(w.state.started)
    && StartsAreDue(job, w)
    && LastStartSafe(job, w)
    && w.now >= job.creation
  }

  // ----- one step -----

  /** What a step does to pods, marks and history, in one place. */
  lemma EffectShape(job: CronJob, env: Env, s: State, sweep: Sweep)
    requires Sweeps(job, env, sweep)
    ensures var s' := Effect(job, env, s, sweep);
            var v := Decide(job, env);
            && s.deleting <= s'.deleting <= s.deleting + s.pods.Keys
            && (!Reached(v) ==> s' == s)
            && (Reached(v) && !PassedPolicy(v) ==> s'.deleting <= s.deleting + sweep.failed + sweep.succeeded)
            && (if Creates(v, env) then
                  && s'.pods == s.pods[s.nextName := PodFor(job, Plan(job, env).missed, s.nextName)]
                  && s'.nextName == s.nextName + 1 && s'.started == s.started + [Plan(job, env).missed]
                else s'.pods == s.pods && s'.nextName == s.nextName && s'.started == s.started)
  {
  }

  /** The planned run is the latest point there is, and later than anything the listed pods are for. */
  lemma PlannedRun(job: CronJob, w: World, env: Env)
    requires Sane(job) && Allowed(w, env) && Reached(Decide(job, env)) && job.schedule.Some?
    requires Plan(job, env).Times? && Plan(job, env).missed != ZERO_TIME
    ensures var m := Plan(job, env).missed;
            && job.creation < m <= env.nowPlan && m % SECOND == 0 && IsPoint(job.schedule.value, m)
            && (forall n :: n in w.state.pods && w.state.pods[n].name == n && ScheduleTime(w.state.pods[n]).Some?
                            ==> ScheduleTime(w.state.pods[n]).value < m)
            && (forall p :: p <= env.nowPlan && IsPoint(job.schedule.value, p) ==> p <= m)
  {
    LatestIsMaximum(job.creation, env.listing.value);
    var earliest := EarliestTime(job.creation, Some(LastScheduled(job, env)), job.startingDeadline, env.nowPlan);
    NextRunMeaning(job.schedule.value, earliest, env.nowPlan);
    GreatestIsLatest(job.schedule.value, Plan(job, env).missed, earliest, env.nowPlan);
    forall n | n in w.state.pods && w.state.pods[n].name == n && ScheduleTime(w.state.pods[n]).Some?
      ensures ScheduleTime(w.state.pods[n]).value < Plan(job, env).missed
    {
      assert w.state.pods[n] in env.listing.value;
    }
  }

  lemma GreatestIsLatest(next: Schedule, m: Instant, lo: Instant, hi: Instant)
    requires Lawful(next) && IsGreatest(next, m, lo, hi)
    ensures lo < m <= hi && m % SECOND == 0 && IsPoint(next, m)
    ensures forall p :: p <= hi && IsPoint(next, p) ==> p <= m
  {
    assert next(m - 1) == m;
    forall p | p <= hi && IsPoint(next, p) ensures p <= m {
      if p > lo {
        assert p in Points(next, lo, hi);
      }
    }
  }

  /** A step that passes the policy check has a planned run. */
  lemma PassedHasPlan(job: CronJob, env: Env)
    requires PassedPolicy(Decide(job, env))
    ensures env.listing.Some? && job.schedule.Some? && Plan(job, env).Times? && Plan(job, env).missed != ZERO_TIME
  {
  }

  /** With the listing in order, the clean-up never takes the pod of the last start. */
  lemma LastStartKept(job: CronJob, w: World, env: Env, sweep: Sweep, n: nat)
    requires Remembers(job) && Inv(job, w) && Allowed(w, env) && OrderKept(job, env)
    requires Reached(Decide(job, env)) && Sweeps(job, env, sweep)
    requires n in w.state.pods && w.state.started != []
    requires ScheduleTime(w.state.pods[n]) == Some(w.state.started[|w.state.started| - 1])
    ensures n !in sweep.failed && n !in sweep.succeeded
  {
    KeptInClass(job, w, env, n, FailedClass, job.failedLimit, sweep.failed);
    KeptInClass(job, w, env, n, SucceededClass, job.succeededLimit, sweep.succeeded);
  }

  lemma KeptInClass(job: CronJob, w: World, env: Env, n: nat, c: Class, limit: Option<int>, gone: set<nat>)
    requires Inv(job, w) && Allowed(w, env) && env.listing.Some? && c != ActiveClass
    requires (limit.Some? ==> StartOrderAgrees(env, c)) && LimitRemembers(limit) && SweepsClass(Listed(env, c), limit, gone)
    requires n in w.state.pods && w.state.started != []
    requires ScheduleTime(w.state.pods[n]) == Some(w.state.started[|w.state.started| - 1])
    ensures n !in gone
  {
    var listed, newest := Listed(env, c), w.state.pods[n];
    Selected(env.listing.value, c);
    SelectDistinct(env.listing.value, c);
    if limit.Some? {
      if newest in listed {
        NewestInClass(job, w, env, newest, c);
        NewestSurvives(listed, limit.value, gone, newest);
      } else {
        assert n !in Names(listed);
      }
    }
  }

  lemma NewestInClass(job: CronJob, w: World, env: Env, newest: Pod, c: Class)
    requires Inv(job, w) && Allowed(w, env) && StartOrderAgrees(env, c) && env.listing.Some? && c != ActiveClass
    requires newest in env.listing.value && InClass(newest, c) && w.state.started != []
    requires ScheduleTime(newest) == Some(w.state.started[|w.state.started| - 1])
    ensures forall p :: p in env.listing.value && InClass(p, c) && p != newest ==> Less(p, newest)
  {
  }

  lemma StepKeepsInv(job: CronJob, w: World, env: Env, sweep: Sweep)
    requires Sane(job) && Remembers(job) && Inv(job, w)
    requires Allowed(w, env) && Sweeps(job, env, sweep) && OrderKept(job, env)
    ensures Inv(job, After(job, w, Step(env, sweep)))
  {
    var v, w' := Decide(job, env), After(job, w, Step(env, sweep));
    EffectShape(job, env, w.state, sweep);
    if Creates(v, env) {
      PassedHasPlan(job, env);
      PlannedRun(job, w, env);
      LastIsEarlier(job, w, env);
      CreateKeepsInv(job, w, w', Plan(job, env).missed);
    } else if w.state.started != [] {
      StepKeepsLastStart(job, w, env, sweep);
    }
  }

  /** A step that creates nothing may delete, but leaves the last start remembered or overtaken. */
  lemma StepKeepsLastStart(job: CronJob, w: World, env: Env, sweep: Sweep)
    requires Sane(job) && Remembers(job) && Inv(job, w) && w.state.started != []
    requires Allowed(w, env) && Sweeps(job, env, sweep) && OrderKept(job, env) && !Creates(Decide(job, env), env)
    ensures LastStartSafe(job, After(job, w, Step(env, sweep)))
  {
    var v, s' := Decide(job, env), Effect(job, env, w.state, sweep);
    var last := w.state.started[|w.state.started| - 1];
    EffectShape(job, env, w.state, sweep);
    if PassedPolicy(v) {
      // Replace may have deleted the pod of the last start; but a later run was due.
      PassedHasPlan(job, env);
      LastIsEarlier(job, w, env);
    } else if Covered(w.state, last) {
      var n :| n in w.state.pods && n !in w.state.deleting && ScheduleTime(w.state.pods[n]) == Some(last);
      if Reached(v) {
        LastStartKept(job, w, env, sweep, n);
      }
      assert n in s'.pods && n !in s'.deleting;
    }
  }

  /** The planned run comes after every earlier start, so every earlier start is overtaken by it. */
  lemma LastIsEarlier(job: CronJob, w: World, env: Env)
    requires Sane(job) && Inv(job, w) && Allowed(w, env) && PassedPolicy(Decide(job, env)) && job.schedule.Some?
    requires Plan(job, env).Times? && Plan(job, env).missed != ZERO_TIME
    ensures var m := Plan(job, env).missed;
            forall p :: p in w.state.started ==> p < m && Overtaken(job, p, env.nowPlan)
  {
    PlannedRun(job, w, env);
    var m := Plan(job, env).missed;
    if w.state.started != [] {
      LastBeforePlan(job, w, w.state.started[|w.state.started| - 1], m, env.nowPlan);
      AllBeforeLast(job, w.state.started, m, env.nowPlan);
    }
  }

  lemma AllBeforeLast(job: CronJob, times: seq<Instant>, m: Instant, now: Instant)
    requires Sane(job) && job.schedule.Some? && IsPoint(job.schedule.value, m) && m <= now
    requires Increasing(times) && times != [] && times[|times| - 1] < m
    ensures forall p :: p in times ==> p < m && Overtaken(job, p, now)
  {
    forall p | p in times ensures p < m && Overtaken(job, p, now) {
      NextIsLeastPoint(job.schedule.value, p);
    }
  }

  lemma LastBeforePlan(job: CronJob, w: World, last: Instant, m: Instant, now: Instant)
    requires Sane(job) && job.schedule.Some? && PodsExplained(w.state) && w.now <= now
    requires Covered(w.state, last) || Overtaken(job, last, w.now)
    requires forall n :: n in w.state.pods && w.state.pods[n].name == n && ScheduleTime(w.state.pods[n]).Some?
                         ==> ScheduleTime(w.state.pods[n]).value < m
    requires forall p :: p <= now && IsPoint(job.schedule.value, p) ==> p <= m
    ensures last < m
  {
    if Covered(w.state, last) {
      var n :| n in w.state.pods && n !in w.state.deleting && ScheduleTime(w.state.pods[n]) == Some(last);
      assert w.state.pods[n].name == n;
    } else {
      NextIsLeastPoint(job.schedule.value, last);
    }
  }

  lemma CreateKeepsInv(job: CronJob, w: World, w': World, m: Instant)
    requires Inv(job, w) && job.schedule.Some? && IsPoint(job.schedule.value, m) && m % SECOND == 0
    requires job.creation < m <= w'.now && w.now <= w'.now
    requires forall p :: p in w.state.started ==> p < m
    requires forall n :: n in w.state.pods && w.state.pods[n].name == n && ScheduleTime(w.state.pods[n]).Some?
                         ==> ScheduleTime(w.state.pods[n]).value < m
    requires w'.state.pods == w.state.pods[w.state.nextName := PodFor(job, m, w.state.nextName)]
    requires w'.state.nextName == w.state.nextName + 1 && w'.state.started == w.state.started + [m]
    requires w.state.deleting <= w'.state.deleting <= w.state.deleting + w.state.pods.Keys
    ensures Inv(job, w')
  {
    ScheduleTimeRoundTrip(job, m, w.state.nextName);
    var s, s' := w.state, w'.state;
    forall n | n in s'.pods
      ensures n < s'.nextName && s'.pods[n].name == n
              && ScheduleTime(s'.pods[n]).Some? && ScheduleTime(s'.pods[n]).value in s'.started
    {
      if n == s.nextName {
        assert s'.started[|s.started|] == m;
      } else {
        assert s'.pods[n] == s.pods[n];
        assert forall t :: t in s.started ==> t in s'.started;
      }
    }
    forall i | 0 <= i < |s.started| ensures s.started[i] < m {
      assert s.started[i] in s.started;
    }
    assert s.nextName in s'.pods && s.nextName !in s'.deleting && ScheduleTime(s'.pods[s.nextName]) == Some(m);
    assert Covered(s', m);
  }

  lemma EventKeepsInv(job: CronJob, w: World, e: Event)
    requires Sane(job) && Remembers(job) && Inv(job, w) && Happens(job, w, e)
    requires e.Step? ==> OrderKept(job, e.env)
    ensures Inv(job, After(job, w, e))
  {
    var w' := After(job, w, e);
    match e {
      case Step(env, sweep) => StepKeepsInv(job, w, env, sweep);
      case Progress(name, _, _) => SamePodsKeepInv(job, w, w');
      case Vanish(name) => SamePodsKeepInv(job, w, w');
      case Tick(now) => SamePodsKeepInv(job, w, w');
    }
  }

  /** Nothing about the past changes while pods change phase, marked pods disappear and time passes. */
  lemma SamePodsKeepInv(job: CronJob, w: World, w': World)
    requires Inv(job, w) && w'.now >= w.now && w'.state.started == w.state.started
    requires w'.state.nextName == w.state.nextName && w'.state.deleting <= w.state.deleting && w'.state.deleting <= w'.state.pods.Keys
    requires forall n :: n in w'.state.pods ==> n in w.state.pods && w'.state.pods[n].name == w.state.pods[n].name
                                                && w'.state.pods[n].annotations == w.state.pods[n].annotations
    requires w.state.pods.Keys - w.state.deleting <= w'.state.pods.Keys
    ensures Inv(job, w')
  {
  }

  lemma {:induction false} RunKeepsInv(job: CronJob, ws: seq<World>, es: seq<Event>, i: nat)
    requires Sane(job) && Remembers(job) && IsRun(job, ws, es) && Orderly(job, es) && i < |ws|
    ensures Inv(job, ws[i])
  {
    if i > 0 {
      RunKeepsInv(job, ws, es, i - 1);
      EventKeepsInv(job, ws[i - 1], es[i - 1]);
    }
  }

  /**
    At most one start per scheduled time, over whole orderly runs: in every world of such a run the started times
    are strictly increasing. Pods may finish and be cleaned up, be replaced, or vanish, and creates may fail.
   */
  lemma AtMostOnce(job: CronJob, ws: seq<World>, es: seq<Event>, i: nat)
    requires Sane(job) && Remembers(job) && IsRun(job, ws, es) && Orderly(job, es) && i < |ws|
    ensures Increasing(ws[i].state.started)
    ensures forall p :: p in ws[i].state.started ==>
              job.creation < p <= ws[i].now && job.schedule.Some? && IsPoint(job.schedule.value, p)
  {
    RunKeepsInv(job, ws, es, i);
  }
}
