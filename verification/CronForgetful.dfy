/**
  When does "at most one start per scheduled time" hold? The exact conditions on the job, over all runs and
  over orderly ones. And which jobs start anything at all?
 */
module CronForgetful {
  import opened Options
  import opened CronTime
  import opened CronSchedule
  import opened CronJobs
  import opened CronHistory
  import opened CronReconcile
  import opened CronRuns

  /** A deadline in seconds whose nanosecond product has the right sign. */
  predicate DeadlineOpen(deadline: Option<int>) {
    deadline.Some? ==> Wrap64(-SECOND * deadline.value) < 0 && Wrap64(SECOND * deadline.value) >= 0
  }

  /** The schedule parses, the job is not suspended, the deadline leaves room, and no clean-up runs past its list. */
  predicate CanStart(job: CronJob) {
    && job.schedule.Some? && job.suspend != Some(true) && DeadlineOpen(job.startingDeadline)
    && !LoopOverruns(job.failedLimit) && !LoopOverruns(job.succeededLimit)
  }

  /** The job can start pods, and one of its history limits keeps no finished pod at all. */
  predicate Forgetful(job: CronJob) {
    CanStart(job) && (job.failedLimit == Some(1) || job.succeededLimit == Some(1))
  }

  ghost predicate NoRepeat(times: seq<Instant>) {
    forall i, j :: 0 <= i < j < |times| ==> times[i] != times[j]
  }

  /** A run of the job; an orderly one, if that is asked for. */
  ghost predicate RunOf(job: CronJob, ws: seq<World>, es: seq<Event>, orderly: bool) {
    IsRun(job, ws, es) && (orderly ==> Orderly(job, es))
  }

  /** No such run of the job ever starts a scheduled time twice. */
  ghost predicate NeverTwice(job: CronJob, orderly: bool) {
    forall ws: seq<World>, es: seq<Event>, i: nat {:trigger RunOf(job, ws, es, orderly), ws[i]} ::
      RunOf(job, ws, es, orderly) && i < |ws| ==> NoRepeat(ws[i].state.started)
  }

  /** Some such run ends in w. */
  ghost predicate Reachable(job: CronJob, w: World, orderly: bool) {
    exists ws: seq<World>, es: seq<Event> :: RunOf(job, ws, es, orderly) && ws[|es|] == w
  }

  /** Some run of the job starts something. */
  ghost predicate Startable(job: CronJob) {
    exists w :: Reachable(job, w, false) && w.state.started != []
  }

  // ----- jobs that never start anything -----

  lemma StartsOnlyIfCanStart(job: CronJob, w: World, env: Env)
    requires Sane(job) && ClockOn(w, env) && Creates(Decide(job, env), env)
    ensures CanStart(job)
  {
    PassedHasPlan(job, env);
    var last := LastScheduled(job, env);
    LatestIsMaximum(job.creation, env.listing.value);
    var earliest := EarliestTime(job.creation, Some(last), job.startingDeadline, env.nowPlan);
    NextRunMeaning(job.schedule.value, earliest, env.nowPlan);
  }

  /** Whatever it is shown, a step of any other job starts nothing. */
  lemma NoStart(job: CronJob, w: World, e: Event)
    requires Sane(job) && !CanStart(job) && (e.Step? ==> ClockOn(w, e.env) && Sweeps(job, e.env, e.sweep))
    ensures After(job, w, e).state.started == w.state.started
  {
    if e.Step? {
      EffectShape(job, e.env, w.state, e.sweep);
      if Creates(Decide(job, e.env), e.env) {
        StartsOnlyIfCanStart(job, w, e.env);
      }
    }
  }

  lemma {:induction false} NeverStarts(job: CronJob, ws: seq<World>, es: seq<Event>, i: nat)
    requires Sane(job) && !CanStart(job) && IsRun(job, ws, es) && i < |ws|
    ensures ws[i].state.started == []
  {
    if i > 0 {
      NeverStarts(job, ws, es, i - 1);
      NoStart(job, ws[i - 1], es[i - 1]);
    }
  }

  // ----- the run that starts a time twice: its states -----

  /** The time before point n: the creation, or the point before. */
  function Base(job: CronJob, n: nat): Instant
    requires job.schedule.Some?
    decreases n, 0
  {
    if n == 0 then job.creation else PointNo(job, n - 1)
  }

  function PointNo(job: CronJob, n: nat): Instant
    requires job.schedule.Some?
    decreases n, 1
  {
    job.schedule.value(Base(job, n))
  }

  /** The finished pod of point n, started at that time. */
  function Finished(job: CronJob, n: nat, phase: PodPhase): Pod
    requires job.schedule.Some?
  {
    PodFor(job, PointNo(job, n), n).(phase := phase, startTime := Some(PointNo(job, n)))
  }

  function History(job: CronJob, n: nat, phase: PodPhase): seq<Pod>
    requires job.schedule.Some?
  {
    seq(n, i requires 0 <= i < n => Finished(job, i, phase))
  }

  /** What a step sees at point k, when everything works. */
  function Calm(job: CronJob, listing: seq<Pod>, k: nat): Env
    requires job.schedule.Some?
  {
    var now := PointNo(job, k);
    Env(Found, Some(listing), {}, true, {}, {}, now, now, now, true, true, true)
  }

  /** The same pod, while no start time has been reported for it. */
  function Unnoted(job: CronJob, n: nat, phase: PodPhase): Pod
    requires job.schedule.Some?
  {
    Finished(job, n, phase).(startTime := None)
  }

  /** The class of a finished phase has this limit. */
  function LimitOf(job: CronJob, phase: PodPhase): Option<int> {
    if phase == Failed then job.failedLimit else job.succeededLimit
  }

  function SweepOf(gone: set<nat>, phase: PodPhase): Sweep {
    if phase == Failed then Sweep(gone, {}) else Sweep({}, gone)
  }

  /** The pods are those of the first n points, all finished. */
  ghost predicate Settled(job: CronJob, s: State, n: nat, phase: PodPhase)
    requires job.schedule.Some?
  {
    && (forall i: nat {:trigger i in s.pods} :: i in s.pods <==> i < n)
    && (forall i {:trigger s.pods[i]} :: i in s.pods ==> s.pods[i] == Finished(job, i, phase))
  }

  // ----- what a step decides there -----

  lemma {:induction false} PointsIncrease(job: CronJob, n: nat)
    requires Sane(job) && job.schedule.Some?
    ensures job.creation <= Base(job, n) < PointNo(job, n) && PointNo(job, n) % SECOND == 0
    ensures forall m: nat {:trigger PointNo(job, m)} :: m < n ==> PointNo(job, m) < PointNo(job, n)
  {
    NextIsLeastPoint(job.schedule.value, Base(job, n));
    if n > 0 {
      PointsIncrease(job, n - 1);
    }
  }

  lemma {:induction false} HistoryLatest(job: CronJob, n: nat, phase: PodPhase)
    requires Sane(job) && job.schedule.Some?
    ensures LatestScheduled(job.creation, History(job, n, phase)) == Base(job, n)
  {
    if n > 0 {
      var pods := History(job, n, phase);
      assert pods[..n - 1] == History(job, n - 1, phase);
      HistoryLatest(job, n - 1, phase);
      PointsIncrease(job, n - 1);
      ScheduleTimeRoundTrip(job, PointNo(job, n - 1), n - 1);
    }
  }

  lemma {:induction false} SelectUniform(pods: seq<Pod>, c: Class, inside: bool)
    requires forall p :: p in pods ==> (InClass(p, c) <==> inside)
    ensures Select(pods, c) == if inside then pods else []
  {
    if pods != [] {
      var init, last := pods[..|pods| - 1], pods[|pods| - 1];
      assert pods == init + [last];
      SelectUniform(init, c, inside);
    }
  }

  /** With the last start before point k, that point is due. */
  lemma PointDue(job: CronJob, listing: seq<Pod>, k: nat)
    requires Sane(job) && CanStart(job)
    requires LatestScheduled(job.creation, listing) == Base(job, k) && Select(listing, ActiveClass) == []
    ensures var env := Calm(job, listing, k);
            Decide(job, env).Created? && Plan(job, env).Times? && Plan(job, env).missed == PointNo(job, k)
  {
    var env, p, next := Calm(job, listing, k), PointNo(job, k), job.schedule.value;
    PointsIncrease(job, k);
    var earliest := EarliestTime(job.creation, Some(Base(job, k)), job.startingDeadline, p);
    assert Base(job, k) <= earliest < p;
    NextIsLeastPoint(next, p);
    assert NoneBetween(next, Base(job, k), earliest);
    assert Walk(next, p, ZERO_TIME, MAX_MISSED, p) == Walk(next, next(p), p, MAX_MISSED - 1, p) == Some(p);
    assert Plan(job, env) == Times(p, next(p));
  }

  /** Once it is started and its pod is listed, nothing is due. */
  lemma NothingDue(job: CronJob, listing: seq<Pod>, k: nat)
    requires Sane(job) && CanStart(job) && LatestScheduled(job.creation, listing) == PointNo(job, k)
    ensures Decide(job, Calm(job, listing, k)).Idle?
  {
    NextIsLeastPoint(job.schedule.value, PointNo(job, k));
  }

  // ----- its steps -----

  /** The step that starts point k. */
  function Starting(job: CronJob, k: nat, phase: PodPhase): Event
    requires job.schedule.Some?
  {
    Step(Calm(job, History(job, k, phase), k), Sweep({}, {}))
  }

  lemma HistoryInOrder(job: CronJob, k: nat, phase: PodPhase, c: Class)
    requires Sane(job) && job.schedule.Some?
    ensures StartOrderAgrees(Calm(job, History(job, k, phase), k), c)
  {
    var env := Calm(job, History(job, k, phase), k);
    forall p, q | p in env.listing.value && q in env.listing.value && InClass(p, c) && InClass(q, c)
                  && ScheduleTime(p).Some? && ScheduleTime(q).Some? && ScheduleTime(p).value < ScheduleTime(q).value
      ensures Less(p, q)
    {
      var i :| 0 <= i < k && p == Finished(job, i, phase);
      var j :| 0 <= j < k && q == Finished(job, j, phase);
      PointsIncrease(job, i);
      PointsIncrease(job, j);
      ScheduleTimeRoundTrip(job, PointNo(job, i), i);
      ScheduleTimeRoundTrip(job, PointNo(job, j), j);
    }
  }

  lemma HistoryFresh(job: CronJob, s: State, k: nat, phase: PodPhase)
    requires job.schedule.Some? && Settled(job, s, k, phase)
    ensures Fresh(History(job, k, phase), s)
  {
    var listing := History(job, k, phase);
    forall p: Pod | p.name in s.pods && s.pods[p.name] == p ensures p in listing {
      assert listing[p.name] == p;
    }
  }

  /** A history below the limit loses nothing, and the next point is started. */
  lemma StartingDecides(job: CronJob, k: nat, phase: PodPhase)
    requires Sane(job) && CanStart(job) && (phase == Failed || phase == Succeeded)
    requires LimitOf(job, phase).Some? ==> k < LimitOf(job, phase).value
    ensures var env := Calm(job, History(job, k, phase), k);
            && Decide(job, env).Created? && Plan(job, env).Times? && Plan(job, env).missed == PointNo(job, k)
            && Sweeps(job, env, Sweep({}, {}))
  {
    var listing := History(job, k, phase);
    HistoryLatest(job, k, phase);
    SelectUniform(listing, ActiveClass, false);
    SelectUniform(listing, FailedClass, phase == Failed);
    SelectUniform(listing, SucceededClass, phase == Succeeded);
    PointDue(job, listing, k);
  }

  lemma StartingStep(job: CronJob, w: World, k: nat, phase: PodPhase)
    requires Sane(job) && CanStart(job) && (phase == Failed || phase == Succeeded)
    requires LimitOf(job, phase).Some? ==> k < LimitOf(job, phase).value
    requires Settled(job, w.state, k, phase) && w.now <= PointNo(job, k)
    ensures var e := Starting(job, k, phase);
            Happens(job, w, e) && OrderKept(job, e.env) && Started(job, w, After(job, w, e), PointNo(job, k))
  {
    HistoryInOrder(job, k, phase, FailedClass);
    HistoryInOrder(job, k, phase, SucceededClass);
    HistoryFresh(job, w.state, k, phase);
    StartingDecides(job, k, phase);
    EffectShape(job, Calm(job, History(job, k, phase), k), w.state, Sweep({}, {}));
  }

  /** From w to w' the time p is started, just as it comes up. */
  ghost predicate Started(job: CronJob, w: World, w': World, p: Instant) {
    && w'.now == p && w'.state.started == w.state.started + [p]
    && w'.state.pods == w.state.pods[w.state.nextName := PodFor(job, p, w.state.nextName)]
    && w'.state.nextName == w.state.nextName + 1
  }

  /** The pods of a full history, the newest without a start time. */
  function FullHistory(job: CronJob, n: nat, phase: PodPhase): seq<Pod>
    requires job.schedule.Some?
  {
    History(job, n, phase) + [Unnoted(job, n, phase)]
  }

  function Sweeping(job: CronJob, n: nat, phase: PodPhase): Event
    requires job.schedule.Some?
  {
    Step(Calm(job, FullHistory(job, n, phase), n), SweepOf({n}, phase))
  }

  lemma UnnotedIsOldest(job: CronJob, n: nat, phase: PodPhase)
    requires job.schedule.Some?
    ensures AreOldest(FullHistory(job, n, phase), PruneCount(n + 1, n + 1), {n})
  {
    assert FullHistory(job, n, phase)[n] == Unnoted(job, n, phase);
    assert n in Names(FullHistory(job, n, phase));
  }

  /** The pods of the first n points, and that of point n without a start time. */
  ghost predicate Full(job: CronJob, s: State, n: nat, phase: PodPhase)
    requires job.schedule.Some?
  {
    && (forall i: nat {:trigger i in s.pods} :: i in s.pods <==> i <= n)
    && (forall i {:trigger s.pods[i]} :: i in s.pods ==>
          s.pods[i] == if i < n then Finished(job, i, phase) else Unnoted(job, n, phase))
  }

  lemma FullFresh(job: CronJob, s: State, n: nat, phase: PodPhase)
    requires job.schedule.Some? && Full(job, s, n, phase)
    ensures Fresh(FullHistory(job, n, phase), s)
  {
    var listing := FullHistory(job, n, phase);
    forall p: Pod | p.name in s.pods && s.pods[p.name] == p ensures p in listing {
      assert listing[p.name] == p;
    }
  }

  /** Point n is not due again, and a class of one pod is in order. */
  lemma FullDecides(job: CronJob, n: nat, phase: PodPhase)
    requires Sane(job) && CanStart(job)
    ensures var env := Calm(job, FullHistory(job, n, phase), n);
            Decide(job, env).Idle? && (n == 0 ==> OrderKept(job, env))
  {
    var listing := FullHistory(job, n, phase);
    assert listing[..n] == History(job, n, phase);
    HistoryLatest(job, n, phase);
    PointsIncrease(job, n);
    ScheduleTimeRoundTrip(job, PointNo(job, n), n);
    NothingDue(job, listing, n);
  }

  /** What the clean-up of one class takes there: the newest pod of the full class, nothing of the other. */
  lemma FullSwept(job: CronJob, n: nat, phase: PodPhase, c: Class, limit: Option<int>)
    requires job.schedule.Some? && !LoopOverruns(limit) && (InClass(Unnoted(job, n, phase), c) ==> limit == Some(n + 1))
    ensures SweepsClass(Select(FullHistory(job, n, phase), c), limit, if InClass(Unnoted(job, n, phase), c) then {n} else {})
  {
    SelectUniform(FullHistory(job, n, phase), c, InClass(Unnoted(job, n, phase), c));
    UnnotedIsOldest(job, n, phase);
  }

  /** A history that has reached its limit loses its newest pod, if that one has no start time. */
  lemma SweepingDecides(job: CronJob, n: nat, phase: PodPhase)
    requires Sane(job) && CanStart(job) && (phase == Failed || phase == Succeeded) && LimitOf(job, phase) == Some(n + 1)
    ensures var env := Calm(job, FullHistory(job, n, phase), n);
            Decide(job, env).Idle? && Sweeps(job, env, SweepOf({n}, phase)) && (n == 0 ==> OrderKept(job, env))
  {
    FullDecides(job, n, phase);
    FullSwept(job, n, phase, FailedClass, job.failedLimit);
    FullSwept(job, n, phase, SucceededClass, job.succeededLimit);
  }

  lemma SweepingStep(job: CronJob, w: World, n: nat, phase: PodPhase)
    requires Sane(job) && CanStart(job) && (phase == Failed || phase == Succeeded) && LimitOf(job, phase) == Some(n + 1)
    requires w.now == PointNo(job, n) && Full(job, w.state, n, phase)
    ensures var e := Sweeping(job, n, phase);
            var w' := After(job, w, e);
            && Happens(job, w, e) && (n == 0 ==> OrderKept(job, e.env)) && w'.now == w.now
            && w'.state.pods == w.state.pods && w'.state.started == w.state.started && n in w'.state.deleting
  {
    FullFresh(job, w.state, n, phase);
    SweepingDecides(job, n, phase);
    EffectShape(job, Calm(job, FullHistory(job, n, phase), n), w.state, SweepOf({n}, phase));
    assert n in w.state.pods;
  }

  // ----- the run -----

  /** A run may go on with any event that can happen. */
  lemma GoOn(job: CronJob, w: World, e: Event, orderly: bool)
    requires Reachable(job, w, orderly) && Happens(job, w, e)
    requires orderly && e.Step? ==> OrderKept(job, e.env)
    ensures Reachable(job, After(job, w, e), orderly)
  {
    var ws: seq<World>, es: seq<Event> :| RunOf(job, ws, es, orderly) && ws[|es|] == w;
    assert RunOf(job, ws + [After(job, w, e)], es + [e], orderly);
  }

  lemma Weaken(job: CronJob, w: World, orderly: bool)
    requires Reachable(job, w, true)
    ensures Reachable(job, w, orderly)
  {
    var ws: seq<World>, es: seq<Event> :| RunOf(job, ws, es, true) && ws[|es|] == w;
    assert RunOf(job, ws, es, orderly);
  }

  /** The run goes on by starting point k. */
  lemma GoStarting(job: CronJob, w: World, k: nat, phase: PodPhase, orderly: bool) returns (w': World)
    requires Sane(job) && CanStart(job) && (phase == Failed || phase == Succeeded) && Reachable(job, w, orderly)
    requires LimitOf(job, phase).Some? ==> k < LimitOf(job, phase).value
    requires Settled(job, w.state, k, phase) && w.now <= PointNo(job, k)
    ensures Reachable(job, w', orderly) && Started(job, w, w', PointNo(job, k))
  {
    StartingStep(job, w, k, phase);
    GoOn(job, w, Starting(job, k, phase), orderly);
    w' := After(job, w, Starting(job, k, phase));
  }

  /** The run goes on with the pod of point n finishing. */
  lemma GoFinishing(job: CronJob, w: World, n: nat, phase: PodPhase, startTime: Option<Instant>, orderly: bool)
    returns (w': World)
    requires job.schedule.Some? && Reachable(job, w, orderly)
    requires n in w.state.pods && w.state.pods[n] == PodFor(job, PointNo(job, n), n)
    ensures Reachable(job, w', orderly) && w'.now == w.now
    ensures w'.state.started == w.state.started && w'.state.nextName == w.state.nextName
    ensures w'.state.pods == w.state.pods[n := Finished(job, n, phase).(startTime := startTime)]
  {
    GoOn(job, w, Progress(n, phase, startTime), orderly);
    w' := After(job, w, Progress(n, phase, startTime));
  }

  /** The run goes on with the clean-up of pod n, and then that pod is gone. */
  lemma GoSweeping(job: CronJob, w: World, n: nat, phase: PodPhase, orderly: bool) returns (w': World)
    requires Sane(job) && CanStart(job) && (phase == Failed || phase == Succeeded) && LimitOf(job, phase) == Some(n + 1)
    requires Reachable(job, w, orderly) && (orderly ==> n == 0)
    requires w.now == PointNo(job, n) && Full(job, w.state, n, phase)
    ensures Reachable(job, w', orderly) && w'.now == w.now && w'.state.started == w.state.started
    ensures w'.state.pods == w.state.pods - {n}
  {
    SweepingStep(job, w, n, phase);
    GoOn(job, w, Sweeping(job, n, phase), orderly);
    var swept := After(job, w, Sweeping(job, n, phase));
    GoOn(job, swept, Vanish(n), orderly);
    w' := After(job, swept, Vanish(n));
  }

  lemma OneMoreSettled(job: CronJob, s: State, s': State, n: nat, phase: PodPhase)
    requires job.schedule.Some? && Settled(job, s, n, phase)
    requires s'.pods == s.pods[n := PodFor(job, PointNo(job, n), n)][n := Finished(job, n, phase)]
    ensures Settled(job, s', n + 1, phase)
  {
  }

  /** The first n points are started one after the other, each as it comes up, and their pods finish. */
  lemma {:induction false} StartMany(job: CronJob, n: nat, phase: PodPhase) returns (w: World)
    requires Sane(job) && CanStart(job) && (phase == Failed || phase == Succeeded)
    requires LimitOf(job, phase).Some? ==> n < LimitOf(job, phase).value
    ensures Reachable(job, w, true) && Settled(job, w.state, n, phase) && w.now == Base(job, n) && w.state.nextName == n
  {
    if n == 0 {
      w := Initial(job);
      assert RunOf(job, [w], [], true);
    } else {
      var w0 := StartMany(job, n - 1, phase);
      PointsIncrease(job, n - 1);
      w := GoStarting(job, w0, n - 1, phase, true);
      w := GoFinishing(job, w, n - 1, phase, Some(PointNo(job, n - 1)), true);
      OneMoreSettled(job, w0.state, w.state, n - 1, phase);
    }
  }

  /** The last of n + 1 points is started, its pod finishes, and it is swept away and gone. */
  lemma StartedAndForgotten(job: CronJob, n: nat, phase: PodPhase, orderly: bool) returns (w: World)
    requires Sane(job) && CanStart(job) && (phase == Failed || phase == Succeeded) && LimitOf(job, phase) == Some(n + 1)
    requires orderly ==> n == 0
    ensures Reachable(job, w, orderly) && Settled(job, w.state, n, phase) && w.now == PointNo(job, n)
    ensures w.state.started != [] && w.state.started[|w.state.started| - 1] == PointNo(job, n)
  {
    w := StartMany(job, n, phase);
    PointsIncrease(job, n);
    Weaken(job, w, orderly);
    w := GoStarting(job, w, n, phase, orderly);
    w := GoFinishing(job, w, n, phase, None, orderly);
    w := GoSweeping(job, w, n, phase, orderly);
  }

  /**
    Whatever the limit n + 1, some run starts point n twice: the history fills up, its newest pod has no start
    time and so goes first, and the point is started again. With a limit of one that run is an orderly one.
   */
  lemma StartsTwice(job: CronJob, n: nat, phase: PodPhase, orderly: bool) returns (w: World)
    requires Sane(job) && CanStart(job) && (phase == Failed || phase == Succeeded) && LimitOf(job, phase) == Some(n + 1)
    requires orderly ==> n == 0
    ensures Reachable(job, w, orderly) && !NoRepeat(w.state.started)
    ensures |w.state.started| >= 2 && w.state.started[|w.state.started| - 2..] == [PointNo(job, n), PointNo(job, n)]
  {
    var w0 := StartedAndForgotten(job, n, phase, orderly);
    w := GoStarting(job, w0, n, phase, orderly);
    var k := |w0.state.started|;
    assert w.state.started[k - 1] == w.state.started[k] == PointNo(job, n);
  }

  // ----- the exact conditions -----

  lemma ReachedTwice(job: CronJob, w: World, orderly: bool)
    requires Reachable(job, w, orderly) && !NoRepeat(w.state.started)
    ensures !NeverTwice(job, orderly)
  {
    var ws: seq<World>, es: seq<Event> :| RunOf(job, ws, es, orderly) && ws[|es|] == w;
    assert !NoRepeat(ws[|es|].state.started);
  }

  /**
    Over all runs with fresh listings, and with no assumption on what kubelets report: no scheduled time is ever started twice if and
    only if the job can start nothing at all or has no history limit.
   */
  lemma AtMostOnceExactly(job: CronJob)
    requires Sane(job)
    ensures NeverTwice(job, false) <==> !(CanStart(job) && HasLimit(job))
  {
    if CanStart(job) && HasLimit(job) {
      var phase := if job.failedLimit.Some? then Failed else Succeeded;
      var w := StartsTwice(job, LimitOf(job, phase).value - 1, phase, false);
      ReachedTwice(job, w, false);
    } else {
      forall ws: seq<World>, es: seq<Event>, i: nat {:trigger RunOf(job, ws, es, false), ws[i]}
        | RunOf(job, ws, es, false) && i < |ws|
        ensures NoRepeat(ws[i].state.started)
      {
        NoRepeatIn(job, ws, es, i);
      }
    }
  }

  lemma NoRepeatIn(job: CronJob, ws: seq<World>, es: seq<Event>, i: nat)
    requires Sane(job) && IsRun(job, ws, es) && i < |ws|
    requires CanStart(job) ==> Remembers(job) && Orderly(job, es)
    ensures NoRepeat(ws[i].state.started)
  {
    if CanStart(job) {
      AtMostOnce(job, ws, es, i);
    } else {
      NeverStarts(job, ws, es, i);
    }
  }

  /**
    Over the orderly runs, in which finished pods report start times in the order of their scheduled times:
    no scheduled time is ever started twice if and only if the job can start nothing at all or has no limit of one.
   */
  lemma AtMostOnceInOrderlyRuns(job: CronJob)
    requires Sane(job)
    ensures NeverTwice(job, true) <==> !Forgetful(job)
  {
    if Forgetful(job) {
      var w := StartsTwice(job, 0, if job.failedLimit == Some(1) then Failed else Succeeded, true);
      ReachedTwice(job, w, true);
    } else {
      forall ws: seq<World>, es: seq<Event>, i: nat {:trigger RunOf(job, ws, es, true), ws[i]}
        | RunOf(job, ws, es, true) && i < |ws|
        ensures NoRepeat(ws[i].state.started)
      {
        NoRepeatIn(job, ws, es, i);
      }
    }
  }

  // ----- listings that lag behind -----

  /** The listing shows the pods as they were at some moment of the run so far. */
  ghost predicate ShownBefore(listing: seq<Pod>, ws: seq<World>, i: nat) {
    exists k :: 0 <= k <= i && k < |ws| && Fresh(listing, ws[k].state)
  }

  ghost predicate HappensLate(job: CronJob, ws: seq<World>, i: nat, e: Event)
    requires i < |ws|
  {
    match e
    case Step(env, sweep) =>
      && (env.listing.Some? ==> ShownBefore(env.listing.value, ws, i))
      && ClockOn(ws[i], env) && Sweeps(job, env, sweep)
    case _ => Happens(job, ws[i], e)
  }

  /** A run whose listings may come from a cache that has not caught up. */
  ghost predicate IsLateRun(job: CronJob, ws: seq<World>, es: seq<Event>) {
    && |ws| == |es| + 1
    && ws[0] == Initial(job)
    && (forall i :: 0 <= i < |es| ==> HappensLate(job, ws, i, es[i]) && ws[i + 1] == After(job, ws[i], es[i]))
  }

  ghost predicate NeverTwiceLate(job: CronJob) {
    forall ws: seq<World>, es: seq<Event>, i: nat {:trigger IsLateRun(job, ws, es), ws[i]} ::
      IsLateRun(job, ws, es) && i < |ws| ==> NoRepeat(ws[i].state.started)
  }

  lemma {:induction false} NeverStartsLate(job: CronJob, ws: seq<World>, es: seq<Event>, i: nat)
    requires Sane(job) && !CanStart(job) && IsLateRun(job, ws, es) && i < |ws|
    ensures ws[i].state.started == []
  {
    if i > 0 {
      NeverStartsLate(job, ws, es, i - 1);
      NoStart(job, ws[i - 1], es[i - 1]);
    }
  }

  /** The second of two steps still sees the empty cluster. */
  lemma LateStartsTwice(job: CronJob) returns (ws: seq<World>, es: seq<Event>)
    requires Sane(job) && CanStart(job)
    ensures IsLateRun(job, ws, es) && |ws| == 3 && ws[2].state.started == [PointNo(job, 0), PointNo(job, 0)]
  {
    var e, w0 := Starting(job, 0, Failed), Initial(job);
    PointsIncrease(job, 0);
    StartingDecides(job, 0, Failed);
    HistoryFresh(job, w0.state, 0, Failed);
    EffectShape(job, e.env, w0.state, e.sweep);
    var w1 := After(job, w0, e);
    EffectShape(job, e.env, w1.state, e.sweep);
    ws, es := [w0, w1, After(job, w1, e)], [e, e];
    assert Fresh(e.env.listing.value, ws[0].state);
    forall i | 0 <= i < |es| ensures HappensLate(job, ws, i, es[i]) && ws[i + 1] == After(job, ws[i], es[i]) {
      assert ShownBefore(e.env.listing.value, ws, i);
    }
  }

  /**
    Fresh listings are essential: over the runs whose listings may lag behind, no scheduled time is ever started
    twice if and only if the job can start nothing at all.
   */
  lemma AtMostOnceWithLateListings(job: CronJob)
    requires Sane(job)
    ensures NeverTwiceLate(job) <==> !CanStart(job)
  {
    if CanStart(job) {
      var ws, es := LateStartsTwice(job);
      assert ws[2].state.started[0] == ws[2].state.started[1];
      assert !NoRepeat(ws[2].state.started);
    } else {
      forall ws: seq<World>, es: seq<Event>, i: nat {:trigger IsLateRun(job, ws, es), ws[i]}
        | IsLateRun(job, ws, es) && i < |ws|
        ensures NoRepeat(ws[i].state.started)
      {
        NeverStartsLate(job, ws, es, i);
      }
    }
  }

  // ----- which jobs start anything -----

  /** Some run starts something if and only if the schedule parses, nothing stands in the way and the deadline leaves room. */
  lemma StartsExactly(job: CronJob)
    requires Sane(job)
    ensures Startable(job) <==> CanStart(job)
  {
    if CanStart(job) {
      var w := StartMany(job, 0, Failed);
      PointsIncrease(job, 0);
      Weaken(job, w, false);
      w := GoStarting(job, w, 0, Failed, false);
      assert w.state.started != [];
    } else if Startable(job) {
      var w :| Reachable(job, w, false) && w.state.started != [];
      var ws: seq<World>, es: seq<Event> :| RunOf(job, ws, es, false) && ws[|es|] == w;
      NeverStarts(job, ws, es, |es|);
    }
  }

  /**
    Deadlines for a job that starts something without one: with 1 to 9223372036 seconds it still does; with
    9223372037 to 18446744073 seconds, whose products are negative, or with zero it never does.
   */
  lemma StartsByDeadline(job: CronJob, d: int)
    requires Sane(job) && Startable(job.(startingDeadline := None)) && job.startingDeadline == Some(d)
    ensures 1 <= d <= 9223372036 ==> Startable(job)
    ensures d == 0 || 9223372037 <= d <= 18446744073 ==> !Startable(job)
  {
    StartsExactly(job);
    StartsExactly(job.(startingDeadline := None));
  }
}
