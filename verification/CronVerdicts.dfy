/**
  What one reconcile step answers and does, told by schedule points, pods and calls instead of by the code's
  own case distinctions: every verdict exactly, the pod that is created, the requeue time and the status.
 */
module CronVerdicts {
  import opened Options
  import opened CronTime
  import opened CronSchedule
  import opened CronJobs
  import opened CronHistory
  import opened CronReconcile
  import opened CronRuns

  // ----- what is due -----

  /** The point is younger than the deadline, as int64 nanoseconds can tell. */
  predicate Young(job: CronJob, p: Instant, now: Instant) {
    job.startingDeadline.Some? ==> now - p < -Wrap64(-SECOND * job.startingDeadline.value)
  }

  /** The deadline of the point has passed, as int64 nanoseconds can tell. */
  predicate Late(job: CronJob, p: Instant, now: Instant) {
    job.startingDeadline.Some? && p + Wrap64(SECOND * job.startingDeadline.value) < now
  }

  /** Up to 9223372036 seconds, int64 nanoseconds can tell the truth. */
  lemma DeadlineInSeconds(job: CronJob, d: nat, p: Instant, now: Instant)
    requires job.startingDeadline == Some(d) && d <= 9223372036
    ensures Young(job, p, now) <==> now - p < SECOND * d
    ensures Late(job, p, now) <==> now - p > SECOND * d
  {
    assert -SECOND * d == -(SECOND * d);
  }

  /** The schedule points that have come up after the creation and after everything the listed pods are for. */
  ghost predicate IsMissed(job: CronJob, env: Env, p: Instant)
    requires job.schedule.Some? && env.listing.Some?
  {
    && IsPoint(job.schedule.value, p) && job.creation < p <= env.nowPlan && Young(job, p, env.nowPlan)
    && (forall pod :: pod in env.listing.value && ScheduleTime(pod).Some? ==> ScheduleTime(pod).value < p)
  }

  ghost function Missed(job: CronJob, env: Env): set<Instant>
    requires job.schedule.Some? && env.listing.Some?
  {
    set p: Instant | job.creation < p <= env.nowPlan && IsMissed(job, env, p)
  }

  ghost predicate LatestMissed(job: CronJob, env: Env, p: Instant)
    requires job.schedule.Some? && env.listing.Some?
  {
    IsMissed(job, env, p) && forall q :: IsMissed(job, env, q) ==> q <= p
  }

  /** The walk over missed starts looks at exactly these points. */
  lemma MissedAreAhead(job: CronJob, env: Env)
    requires Sane(job) && job.schedule.Some? && env.listing.Some?
    ensures var earliest := EarliestTime(job.creation, Some(LastScheduled(job, env)), job.startingDeadline, env.nowPlan);
            earliest >= ZERO_TIME && Missed(job, env) == Points(job.schedule.value, earliest, env.nowPlan)
  {
    LatestIsMaximum(job.creation, env.listing.value);
  }

  /** What planning finds out. */
  lemma PlanMeaning(job: CronJob, env: Env)
    requires Sane(job) && job.schedule.Some? && env.listing.Some?
    ensures var plan := Plan(job, env);
            && !plan.BadSchedule?
            && (plan.TooManyMissed? <==> |Missed(job, env)| > 100)
            && (plan.Times? ==> (plan.missed == ZERO_TIME <==> Missed(job, env) == {}))
            && (plan.Times? && plan.missed != ZERO_TIME ==> LatestMissed(job, env, plan.missed))
            && (plan.Times? ==> NextPoint(job, env.nowPlan, plan.upcoming))
  {
    var earliest := EarliestTime(job.creation, Some(LastScheduled(job, env)), job.startingDeadline, env.nowPlan);
    MissedAreAhead(job, env);
    NextRunMeaning(job.schedule.value, earliest, env.nowPlan);
    var plan := Plan(job, env);
    if plan.Times? && plan.missed != ZERO_TIME {
      assert plan.missed in Missed(job, env);
      forall q | IsMissed(job, env, q) ensures q <= plan.missed {
        assert q in Missed(job, env);
      }
    }
  }

  /** The first schedule point after now. */
  ghost predicate NextPoint(job: CronJob, now: Instant, p: Instant)
    requires job.schedule.Some?
  {
    now < p && IsPoint(job.schedule.value, p) && forall q :: now < q && IsPoint(job.schedule.value, q) ==> p <= q
  }

  // ----- every verdict, exactly -----

  /** Job and pods could be read and the status written. */
  predicate HasRead(env: Env) {
    env.fetch == Found && env.listing.Some? && env.statusOk
  }

  predicate SomeLimitZero(job: CronJob) {
    || (job.failedLimit.Some? && job.failedLimit.value <= 0)
    || (job.succeededLimit.Some? && job.succeededLimit.value <= 0)
  }

  /** The step goes on to planning. */
  predicate Proceeds(job: CronJob, env: Env) {
    HasRead(env) && !SomeLimitZero(job) && job.suspend != Some(true)
  }

  ghost predicate SomeActive(env: Env)
    requires env.listing.Some?
  {
    exists pod :: pod in env.listing.value && IsActive(pod)
  }

  /** Replacing stops at a pod whose deletion reports an error. */
  ghost predicate ReplaceStops(job: CronJob, env: Env)
    requires env.listing.Some?
  {
    job.policy == Replace && exists pod :: pod in env.listing.value && IsActive(pod) && pod.name in env.failing
  }

  /** The verdicts that end a step before planning. */
  lemma VerdictWithoutPlan(job: CronJob, env: Env)
    ensures var v := Decide(job, env);
            && (v.NotFetched? <==> env.fetch != Found)
            && (v.NotFetched? ==> (v.isError <==> env.fetch != NotFound))
            && (v.ListFailed? <==> env.fetch == Found && env.listing.None?)
            && (v.StatusFailed? <==> env.fetch == Found && env.listing.Some? && !env.statusOk)
            && (v.Panicked? <==> HasRead(env) && SomeLimitZero(job))
            && (v.Suspended? <==> HasRead(env) && !SomeLimitZero(job) && job.suspend == Some(true))
            && (Planned(v) <==> Proceeds(job, env))
  {
  }

  /** There is nothing to do: the schedule is of no use, or nothing was missed. */
  lemma VerdictWithoutRun(job: CronJob, env: Env)
    requires Sane(job) && Proceeds(job, env)
    ensures var v := Decide(job, env);
            && (v.NoTimes? <==> job.schedule.None? || |Missed(job, env)| > 100)
            && (v.Idle? <==> job.schedule.Some? && Missed(job, env) == {})
  {
    if job.schedule.Some? {
      PlanMeaning(job, env);
    }
  }

  /** The run of point p is due and nothing stands in its way. */
  ghost predicate GoesThrough(job: CronJob, env: Env, p: Instant)
    requires env.listing.Some?
  {
    && !Late(job, p, env.nowDeadline) && !(job.policy == Forbid && SomeActive(env))
    && !ReplaceStops(job, env)
  }

  /** What becomes of the latest missed point p, whatever the policy. */
  lemma VerdictOnRun(job: CronJob, env: Env, p: Instant)
    requires Sane(job) && Proceeds(job, env) && job.schedule.Some?
    requires |Missed(job, env)| <= 100 && LatestMissed(job, env, p)
    ensures var v := Decide(job, env);
            && (v.TooLate? <==> Late(job, p, env.nowDeadline))
            && (v.Blocked? <==> !Late(job, p, env.nowDeadline) && job.policy == Forbid && SomeActive(env))
            && (v.ReplaceFailed? <==> !Late(job, p, env.nowDeadline) && ReplaceStops(job, env))
            && (v.NotBuilt? <==> GoesThrough(job, env, p) && !env.buildOk)
            && (v.CreateFailed? <==> GoesThrough(job, env, p) && env.buildOk && !env.createOk)
            && (v.Created? <==> GoesThrough(job, env, p) && env.buildOk && env.createOk)
    ensures Plan(job, env).Times? && Plan(job, env).missed == p != ZERO_TIME
  {
    PlanMeaning(job, env);
    assert p in Missed(job, env);
    ActiveListed(env);
    FirstFailingMeaning(Listed(env, ActiveClass), env.failing);
  }

  lemma ActiveListed(env: Env)
    requires env.listing.Some?
    ensures Listed(env, ActiveClass) != [] <==> SomeActive(env)
    ensures forall pod :: pod in Listed(env, ActiveClass) <==> pod in env.listing.value && IsActive(pod)
  {
    Selected(env.listing.value, ActiveClass);
    if Listed(env, ActiveClass) != [] {
      assert Listed(env, ActiveClass)[0] in Listed(env, ActiveClass);
    }
  }

  /** The first pod whose deletion fails, or the end of the list. */
  lemma {:induction false} FirstFailingMeaning(pods: seq<Pod>, failing: set<nat>)
    ensures var i := FirstFailing(pods, failing);
            && (i < |pods| ==> pods[i].name in failing)
            && (forall j :: 0 <= j < i ==> pods[j].name !in failing)
    ensures FirstFailing(pods, failing) < |pods| <==> exists pod :: pod in pods && pod.name in failing
  {
    if pods != [] && pods[0].name !in failing {
      FirstFailingMeaning(pods[1..], failing);
    }
  }

  // ----- the effect -----

  /** A pod is built from the template, for the given time: all of the template, and the time on top. */
  ghost predicate BuiltFor(pod: Pod, job: CronJob, p: Instant, name: nat) {
    && pod.name == name && IsActive(pod) && pod.startTime.None? && ScheduleTime(pod) == Some(p)
    && pod.labels == job.template.labels && pod.spec == job.template.spec
    && (forall k :: k != SCHEDULED_AT ==>
          (k in pod.annotations <==> k in job.template.annotations)
          && (k in pod.annotations ==> pod.annotations[k] == job.template.annotations[k]))
  }

  lemma PodIsBuilt(job: CronJob, p: Instant, name: nat)
    requires p % SECOND == 0
    ensures BuiltFor(PodFor(job, p, name), job, p, name)
  {
    ScheduleTimeRoundTrip(job, p, name);
  }

  /**
    The latest missed point is started if and only if nothing stands in its way and the create call takes effect;
    then the cluster gains exactly one pod, built from the template for that point.
   */
  lemma DuePointIsStarted(job: CronJob, env: Env, s: State, sweep: Sweep, p: Instant)
    requires Sane(job) && Proceeds(job, env) && job.schedule.Some? && Sweeps(job, env, sweep)
    requires |Missed(job, env)| <= 100 && LatestMissed(job, env, p)
    ensures var s' := Effect(job, env, s, sweep);
            if GoesThrough(job, env, p) && env.buildOk && (env.createOk || env.createTakes) then
              && s'.pods.Keys == s.pods.Keys + {s.nextName} && BuiltFor(s'.pods[s.nextName], job, p, s.nextName)
              && (forall n :: n in s.pods && n != s.nextName ==> s'.pods[n] == s.pods[n])
              && s'.started == s.started + [p] && s'.nextName == s.nextName + 1
            else s'.pods == s.pods && s'.started == s.started && s'.nextName == s.nextName
  {
    VerdictOnRun(job, env, p);
    EffectShape(job, env, s, sweep);
    assert job.schedule.value(p - 1) == p;
    PodIsBuilt(job, p, s.nextName);
  }

  /** No other step creates a pod. */
  lemma NothingElseIsStarted(job: CronJob, env: Env, s: State, sweep: Sweep)
    requires Sane(job) && Sweeps(job, env, sweep)
    requires !Proceeds(job, env) || job.schedule.None? || |Missed(job, env)| > 100 || Missed(job, env) == {}
    ensures var s' := Effect(job, env, s, sweep);
            s'.pods == s.pods && s'.started == s.started && s'.nextName == s.nextName
  {
    VerdictWithoutPlan(job, env);
    if Proceeds(job, env) {
      VerdictWithoutRun(job, env);
    }
    EffectShape(job, env, s, sweep);
  }

  /**
    Replacing: when a due run goes through, every active pod that was listed is marked for deletion unless the call is
    lost; under the other policies, and while nothing is due, no active pod is ever marked.
   */
  lemma OnlyReplaceMarksActive(job: CronJob, w: World, env: Env, sweep: Sweep, n: nat)
    requires Sane(job) && Allowed(w, env) && env.listing.Some? && Sweeps(job, env, sweep)
    requires n in w.state.pods && w.state.pods[n].name == n && IsActive(w.state.pods[n]) && n !in w.state.deleting
    ensures var v, s' := Decide(job, env), Effect(job, env, w.state, sweep);
            && (n in s'.deleting ==> job.policy == Replace && n !in env.lost && PassedPolicy(v))
            && (job.policy == Replace && n !in env.lost && PassedPolicy(v) && !v.ReplaceFailed? ==> n in s'.deleting)
  {
    var pod, v := w.state.pods[n], Decide(job, env);
    assert pod in env.listing.value;
    ActiveListed(env);
    if Reached(v) {
      NotSwept(job, env, sweep, pod);
      if PassedPolicy(v) && !v.ReplaceFailed? && job.policy == Replace {
        AllReplaced(job, env, pod);
      }
    }
  }

  lemma AllReplaced(job: CronJob, env: Env, pod: Pod)
    requires job.policy == Replace && PassedPolicy(Decide(job, env)) && !Decide(job, env).ReplaceFailed?
    requires env.listing.Some? && pod in Listed(env, ActiveClass)
    ensures pod.name in Replaced(job, env)
  {
    var active := Listed(env, ActiveClass);
    assert active[..|active|] == active;
  }

  /** The clean-up takes finished pods only. */
  lemma NotSwept(job: CronJob, env: Env, sweep: Sweep, pod: Pod)
    requires env.listing.Some? && DistinctNames(env.listing.value) && Sweeps(job, env, sweep)
    requires pod in env.listing.value && IsActive(pod)
    ensures pod.name !in sweep.failed && pod.name !in sweep.succeeded
  {
    Selected(env.listing.value, FailedClass);
    Selected(env.listing.value, SucceededClass);
  }

  /** Replacing deletes the active pods in the order of the list, up to and including the first whose deletion fails. */
  lemma ReplacedInOrder(job: CronJob, env: Env, j: nat)
    requires job.policy == Replace && env.listing.Some? && DistinctNames(env.listing.value)
    requires j < |Listed(env, ActiveClass)|
    ensures Listed(env, ActiveClass)[j].name in Replaced(job, env)
            <==> forall k :: 0 <= k < j ==> Listed(env, ActiveClass)[k].name !in env.failing
  {
    var active := Listed(env, ActiveClass);
    SelectDistinct(env.listing.value, ActiveClass);
    FirstFailingMeaning(active, env.failing);
    var stop := FirstFailing(active, env.failing);
    var done := active[..if stop < |active| then stop + 1 else stop];
    assert j < |done| ==> done[j] in done;
    if j >= |done| {
      assert active[stop].name in env.failing;
      assert forall p :: p in done ==> p.name != active[j].name;
    }
  }

  /** The limit of a class of finished pods, and the names of that class that a clean-up took. */
  function LimitFor(job: CronJob, c: Class): Option<int> {
    if c == FailedClass then job.failedLimit else job.succeededLimit
  }

  function TakenFrom(sweep: Sweep, c: Class): set<nat> {
    if c == FailedClass then sweep.failed else sweep.succeeded
  }

  /**
    How many finished pods of a class a step leaves, whether the job is suspended or not: all of them without a limit
    or below it, and one fewer than the limit otherwise. With a limit of zero or less it leaves none, but does not get
    to the succeeded pods if the limit of the failed ones is the trouble.
   */
  lemma KeptByStep(job: CronJob, env: Env, sweep: Sweep, c: Class)
    requires HasRead(env) && DistinctNames(env.listing.value) && Sweeps(job, env, sweep) && c != ActiveClass
    ensures var pods, limit := Listed(env, c), LimitFor(job, c);
            var skipped := c == SucceededClass && job.failedLimit.Some? && job.failedLimit.value <= 0;
            |Names(pods) - TakenFrom(sweep, c)|
            == if limit.None? || skipped || |pods| < limit.value then |pods|
               else if limit.value <= 0 then 0 else limit.value - 1
  {
    var pods, limit := Listed(env, c), LimitFor(job, c);
    SelectDistinct(env.listing.value, c);
    NamesCount(pods);
    if TakenFrom(sweep, c) == {} {
      assert Names(pods) - {} == Names(pods);
    }
    if limit.Some? && AreOldest(pods, PruneCount(|pods|, limit.value), TakenFrom(sweep, c)) {
      KeptAsWritten(pods, limit.value, TakenFrom(sweep, c));
    }
  }

  /** What the clean-up takes is marked for deletion, unless the call is lost. */
  lemma SweptAreMarked(job: CronJob, env: Env, s: State, sweep: Sweep, n: nat)
    requires HasRead(env) && Sweeps(job, env, sweep)
    requires n in s.pods && n !in env.lost && (n in sweep.failed || n in sweep.succeeded)
    ensures n in Effect(job, env, s, sweep).deleting
  {
  }

  // ----- the requeue time -----

  /** The verdicts after which the job is looked at again without an event. */
  predicate Requeues(v: Verdict) {
    v.Idle? || v.TooLate? || v.Blocked? || v.NotBuilt? || v.Created?
  }

  /** It is looked at again when the next schedule point comes up, unless that is too far away for a duration. */
  lemma RequeuedForNextPoint(job: CronJob, env: Env, p: Instant)
    requires Sane(job) && Requeues(Decide(job, env)) && job.schedule.Some? && NextPoint(job, env.nowPlan, p)
    ensures MIN_INT64 <= p - env.nowRequeue <= MAX_INT64 ==> env.nowRequeue + Decide(job, env).requeueAfter == p
    ensures p - env.nowRequeue > MAX_INT64 ==> Decide(job, env).requeueAfter == MAX_INT64
    ensures env.nowRequeue == env.nowPlan ==> Decide(job, env).requeueAfter > 0
  {
    PlanMeaning(job, env);
  }

  // ----- the status -----

  ghost predicate NamesActive(pods: seq<Pod>, n: nat) {
    exists p :: p in pods && IsActive(p) && p.name == n
  }

  /** A pod named m comes before one named n. */
  ghost predicate ComesBefore(pods: seq<Pod>, m: nat, n: nat) {
    exists i, j {:trigger pods[i], pods[j]} :: 0 <= i < j < |pods| && pods[i].name == m && pods[j].name == n
  }

  /** The names are in the order of the list. */
  ghost predicate InListOrder(names: seq<nat>, pods: seq<Pod>) {
    forall a, b {:trigger names[a], names[b]} :: 0 <= a < b < |names| ==> ComesBefore(pods, names[a], names[b])
  }

  lemma {:induction false} ReferencesNamed(pods: seq<Pod>, referable: set<nat>)
    ensures forall n :: n in References(pods, referable) <==> n in referable && n in Names(pods)
    ensures InListOrder(References(pods, referable), pods)
  {
    if pods != [] {
      var init, last := pods[..|pods| - 1], pods[|pods| - 1];
      assert pods == init + [last];
      ReferencesNamed(init, referable);
      assert Names(pods) == Names(init) + {last.name};
      OrderGrows(References(init, referable), init, last);
    }
  }

  /** The order stays when a pod joins the list at the end, and its name may join too. */
  lemma OrderGrows(names: seq<nat>, pods: seq<Pod>, last: Pod)
    requires InListOrder(names, pods) && forall n :: n in names ==> n in Names(pods)
    ensures InListOrder(names, pods + [last]) && InListOrder(names + [last.name], pods + [last])
  {
    var more, all := names + [last.name], pods + [last];
    forall m, n | ComesBefore(pods, m, n) ensures ComesBefore(all, m, n) {
      var i, j {:trigger pods[i], pods[j]} :| 0 <= i < j < |pods| && pods[i].name == m && pods[j].name == n;
      assert all[i].name == m && all[j].name == n;
    }
    forall n | n in Names(pods) ensures ComesBefore(all, n, last.name) {
      var p :| p in pods && p.name == n;
      var i :| 0 <= i < |pods| && pods[i] == p;
      assert all[i].name == n && all[|pods|].name == last.name;
    }
    forall a, b | 0 <= a < b < |more| ensures ComesBefore(all, more[a], more[b]) {
      assert more[a] == names[a] && (b < |names| ==> more[b] == names[b]);
      assert names[a] in Names(pods);
    }
  }

  /** Selecting keeps the order of the list. */
  lemma {:induction false} SelectedInOrder(pods: seq<Pod>, c: Class)
    ensures InListOrder(PodNames(Select(pods, c)), pods)
    ensures forall n :: n in PodNames(Select(pods, c)) ==> n in Names(pods)
  {
    Selected(pods, c);
    if pods != [] {
      var init, last := pods[..|pods| - 1], pods[|pods| - 1];
      assert pods == init + [last];
      SelectedInOrder(init, c);
      var names := PodNames(Select(init, c));
      OrderGrows(names, init, last);
      assert PodNames(Select(pods, c)) == if InClass(last, c) then names + [last.name] else names;
    }
  }

  function PodNames(pods: seq<Pod>): seq<nat> {
    seq(|pods|, i requires 0 <= i < |pods| => pods[i].name)
  }

  lemma OrderOfOrder(names: seq<nat>, mid: seq<Pod>, pods: seq<Pod>)
    requires InListOrder(names, mid) && InListOrder(PodNames(mid), pods)
    ensures InListOrder(names, pods)
  {
    forall a, b | 0 <= a < b < |names| ensures ComesBefore(pods, names[a], names[b]) {
      assert ComesBefore(mid, names[a], names[b]);
      var k, l {:trigger mid[k], mid[l]} :| 0 <= k < l < |mid| && mid[k].name == names[a] && mid[l].name == names[b];
      assert PodNames(mid)[k] == names[a] && PodNames(mid)[l] == names[b];
      assert ComesBefore(pods, PodNames(mid)[k], PodNames(mid)[l]);
    }
  }

  lemma ActiveReferences(listing: seq<Pod>, referable: set<nat>)
    ensures var names := References(Select(listing, ActiveClass), referable);
            && (forall n :: n in names <==> n in referable && NamesActive(listing, n))
            && InListOrder(names, listing)
  {
    var active := Select(listing, ActiveClass);
    Selected(listing, ActiveClass);
    ReferencesNamed(active, referable);
    SelectedInOrder(listing, ActiveClass);
    OrderOfOrder(References(active, referable), active, listing);
    forall n ensures n in Names(active) <==> NamesActive(listing, n) {
    }
  }

  /** The status names the active pods a reference can be made to, and the latest time any listed pod was created for. */
  lemma StatusMeaning(job: CronJob, env: Env, s: State, sweep: Sweep)
    requires HasRead(env)
    ensures var status, pods := Effect(job, env, s, sweep).status, env.listing.value;
            && (forall n :: n in status.active <==> n in env.referable && NamesActive(pods, n))
            && InListOrder(status.active, pods)
            && status.lastSchedule.Some?
            && (forall p :: p in pods && ScheduleTime(p).Some? ==> ScheduleTime(p).value <= status.lastSchedule.value)
            && status.lastSchedule.value >= job.creation
            && (status.lastSchedule.value == job.creation
                || exists p :: p in pods && ScheduleTime(p) == status.lastSchedule)
  {
    ActiveReferences(env.listing.value, env.referable);
    LatestIsMaximum(job.creation, env.listing.value);
  }
}
