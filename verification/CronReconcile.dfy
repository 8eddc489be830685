/**
  One reconcile step: what it decides, what it does to the cluster, and the controller code doing it.
 */
module CronReconcile {
  import opened Options
  import opened CronTime
  import opened CronSchedule
  import opened CronJobs
  import opened CronHistory

  datatype Fetch = Found | NotFound | FetchError

  /** The answers the cluster and the clock give during one step. */
  datatype Env = Env(
    fetch: Fetch,
    listing: Option<seq<Pod>>,       // the pods listed, or a list error
    referable: set<nat>,             // pods that a reference can be made to
    statusOk: bool,
    lost: set<nat>,                  // deletes that do not reach the pod
    failing: set<nat>,               // deletes that report an error other than "not found"
    nowPlan: Instant,                // the three clock reads, in order
    nowRequeue: Instant,
    nowDeadline: Instant,
    buildOk: bool,
    createOk: bool,
    createTakes: bool)               // whether a create that reports an error took effect all the same

  /** What the API server holds. Deleting a pod marks it; it disappears at some later time. */
  datatype State = State(
    pods: map<nat, Pod>,
    deleting: set<nat>,
    nextName: nat,
    status: Status,
    started: seq<Instant>)           // history: the scheduled times for which a pod was created

  datatype Verdict =
    | NotFetched(isError: bool)
    | ListFailed
    | StatusFailed
    | Panicked
    | Suspended
    | NoTimes
    | Idle(requeueAfter: int)
    | TooLate(requeueAfter: int)
    | Blocked(requeueAfter: int)
    | ReplaceFailed
    | NotBuilt(requeueAfter: int)
    | CreateFailed
    | Created(requeueAfter: int)

  /** The names on which the clean-up called delete. */
  datatype Sweep = Sweep(failed: set<nat>, succeeded: set<nat>)

  // ----- the decision -----

  function Listed(env: Env, c: Class): seq<Pod>
    requires env.listing.Some?
  {
    Select(env.listing.value, c)
  }

  function LastScheduled(job: CronJob, env: Env): Instant
    requires env.listing.Some?
  {
    LatestScheduled(job.creation, env.listing.value)
  }

  function Plan(job: CronJob, env: Env): NextTimes
    requires env.listing.Some?
  {
    NextRun(job.schedule,
            EarliestTime(job.creation, Some(LastScheduled(job, env)), job.startingDeadline, env.nowPlan), env.nowPlan)
  }

  /** With a history limit of zero the clean-up loop runs one past the end of the list. */
  predicate LoopOverruns(limit: Option<int>) {
    limit.Some? && limit.value <= 0
  }

  function Decide(job: CronJob, env: Env): Verdict {
    if env.fetch != Found then NotFetched(env.fetch == FetchError)
    else if env.listing.None? then ListFailed
    else if !env.statusOk then StatusFailed
    else if LoopOverruns(job.failedLimit) || LoopOverruns(job.succeededLimit) then Panicked
    else if job.suspend == Some(true) then Suspended
    else if !Plan(job, env).Times? then NoTimes
    else
      var times := Plan(job, env);
      var requeue := Since(times.upcoming, env.nowRequeue);
      if times.missed == ZERO_TIME then Idle(requeue)
      else if PastDeadline(job, times.missed, env.nowDeadline) then TooLate(requeue)
      else if job.policy == Forbid && Listed(env, ActiveClass) != [] then Blocked(requeue)
      else Outcome(job, env, Listed(env, ActiveClass), requeue)
  }

  /** What becomes of a run that is due and allowed. */
  function Outcome(job: CronJob, env: Env, active: seq<Pod>, requeue: int): Verdict {
    if job.policy == Replace && FirstFailing(active, env.failing) < |active| then ReplaceFailed
    else if !env.buildOk then NotBuilt(requeue)
    else if !env.createOk then CreateFailed
    else Created(requeue)
  }

  predicate PastDeadline(job: CronJob, missed: Instant, now: Instant) {
    job.startingDeadline.Some? && missed + Wrap64(SECOND * job.startingDeadline.value) < now
  }

  /** The index of the first pod whose deletion reports an error. */
  function FirstFailing(pods: seq<Pod>, failing: set<nat>): (i: nat)
    ensures i <= |pods|
  {
    if pods == [] || pods[0].name in failing then 0 else 1 + FirstFailing(pods[1..], failing)
  }

  // ----- the effect -----

  function Mark(s: State, names: set<nat>, env: Env): State {
    s.(deleting := s.deleting + (names * s.pods.Keys - env.lost))
  }

  /** Marking the names of a list one by one marks them all. */
  lemma MarkOneMore(s: State, pods: seq<Pod>, i: nat, env: Env)
    requires i < |pods|
    ensures Names(pods[..i + 1]) == Names(pods[..i]) + {pods[i].name}
    ensures Mark(s, Names(pods[..i + 1]), env) == Mark(Mark(s, Names(pods[..i]), env), {pods[i].name}, env)
  {
    assert pods[..i + 1] == pods[..i] + [pods[i]];
  }

  /** The active pods that Replace deletes: all of them, or those up to the first failure. */
  function Replaced(job: CronJob, env: Env): set<nat>
    requires env.listing.Some?
  {
    if job.policy == Replace then ReplacedOf(Listed(env, ActiveClass), env) else {}
  }

  function ReplacedOf(active: seq<Pod>, env: Env): set<nat> {
    var stop := FirstFailing(active, env.failing);
    Names(active[..if stop < |active| then stop + 1 else stop])
  }

  function WithPod(job: CronJob, missed: Instant, s: State): State {
    s.(pods := s.pods[s.nextName := PodFor(job, missed, s.nextName)], nextName := s.nextName + 1,
       started := s.started + [missed])
  }

  predicate Reached(v: Verdict) {
    !v.NotFetched? && !v.ListFailed? && !v.StatusFailed?
  }

  /** The step read the clock and looked for a run that is due. */
  predicate Planned(v: Verdict) {
    Reached(v) && !v.Panicked? && !v.Suspended?
  }

  predicate PassedPolicy(v: Verdict) {
    v.ReplaceFailed? || v.NotBuilt? || v.CreateFailed? || v.Created?
  }

  predicate Creates(v: Verdict, env: Env) {
    v.Created? || (v.CreateFailed? && env.createTakes)
  }

  function Effect(job: CronJob, env: Env, s: State, sweep: Sweep): State {
    var v := Decide(job, env);
    if !Reached(v) then s
    else
      var s1 := s.(status := Status(References(Listed(env, ActiveClass), env.referable), Some(LastScheduled(job, env))));
      Launched(job, env, Mark(Mark(s1, sweep.failed, env), sweep.succeeded, env))
  }

  /** The part of the effect that comes after the clean-up. */
  function Launched(job: CronJob, env: Env, s: State): State
    requires env.listing.Some?
  {
    var v := Decide(job, env);
    var s' := if PassedPolicy(v) then Mark(s, Replaced(job, env), env) else s;
    if Creates(v, env) then WithPod(job, Plan(job, env).missed, s') else s'
  }

  function References(pods: seq<Pod>, referable: set<nat>): seq<nat> {
    if pods == [] then []
    else References(pods[..|pods| - 1], referable)
         + if pods[|pods| - 1].name in referable then [pods[|pods| - 1].name] else []
  }

  /** A clean-up deletes the oldest pods of each class, as many as the loop bound says. */
  ghost predicate SweepsClass(pods: seq<Pod>, limit: Option<int>, gone: set<nat>) {
    if limit.None? then gone == {} else AreOldest(pods, PruneCount(|pods|, limit.value), gone)
  }

  /** The clean-up of both classes; the second loop is not reached when the first one panics. */
  ghost predicate CleansUp(job: CronJob, failed: seq<Pod>, succeeded: seq<Pod>, sweep: Sweep) {
    && SweepsClass(failed, job.failedLimit, sweep.failed)
    && (if LoopOverruns(job.failedLimit) then sweep.succeeded == {}
        else SweepsClass(succeeded, job.succeededLimit, sweep.succeeded))
  }

  /** The sweeps this step may make. */
  ghost predicate Sweeps(job: CronJob, env: Env, sweep: Sweep) {
    if !Reached(Decide(job, env)) then sweep == Sweep({}, {})
    else CleansUp(job, Listed(env, FailedClass), Listed(env, SucceededClass), sweep)
  }

  // ----- the controller -----

  class Cluster {
    var pods: map<nat, Pod>
    var deleting: set<nat>
    var nextName: nat
    var status: Status
    ghost var started: seq<Instant>

    ghost function View(): State
      reads this
    {
      State(pods, deleting, nextName, status, started)
    }

    /** Marks a pod for deletion; true when an error is reported. A pod that is gone already is not an error. */
    method Delete(name: nat, env: Env) returns (failed: bool)
      modifies this`deleting
      ensures View() == Mark(old(View()), {name}, env)
      ensures failed <==> name in env.failing
    {
      if name in pods && name !in env.lost {
        deleting := deleting + {name};
      }
      failed := name in env.failing;
    }

    method Create(pod: Pod, ghost scheduled: Instant, env: Env) returns (failed: bool)
      requires pod.name == nextName
      modifies this`pods, this`nextName, this`started
      ensures failed <==> !env.createOk
      ensures var s := old(View());
              View() == if env.createOk || env.createTakes
                         then s.(pods := s.pods[pod.name := pod], nextName := s.nextName + 1, started := s.started + [scheduled])
                         else s
    {
      if env.createOk || env.createTakes {
        pods := pods[pod.name := pod];
        nextName := nextName + 1;
        started := started + [scheduled];
      }
      failed := !env.createOk;
    }

    /**
      The clean-up of one class: sorts the pods in place, oldest first, and deletes with the bound as written.
      Returns true when the loop ran past the end of the list, which is a panic.
     */
    method Prune(pods: array<Pod>, limit: int, env: Env) returns (panicked: bool, gone: set<nat>)
      requires DistinctNames(pods[..])
      modifies pods, this`deleting
      ensures panicked <==> LoopOverruns(Some(limit))
      ensures AreOldest(old(pods[..]), PruneCount(pods.Length, limit), gone)
      ensures View() == Mark(old(View()), gone, env)
    {
      ghost var listed := pods[..];
      SortByStartTime(pods);
      ghost var sorted := pods[..];
      SamePods(listed, sorted);
      gone, panicked := {}, false;
      var i := 0;
      while i <= pods.Length - limit
        invariant 0 <= i <= pods.Length && i <= PruneCount(pods.Length, limit)
        invariant !panicked && pods[..] == sorted && gone == Names(sorted[..i])
        invariant View() == Mark(old(View()), gone, env)
      {
        if i == pods.Length {
          panicked := true;
          break;
        }
        MarkOneMore(old(View()), sorted, i, env);
        var _ := Delete(pods[i].name, env);
        gone := gone + {pods[i].name};
        i := i + 1;
      }
      PrefixIsOldest(listed, sorted, i);
    }

    /**
      The clean-up that the documentation describes, with the bound `i < n - limit`: it never runs past the end
      of the list, deletes the pods in excess of the limit, oldest first, and keeps the others.
     */
    method PruneAsDocumented(pods: array<Pod>, limit: nat, env: Env) returns (gone: set<nat>)
      requires DistinctNames(pods[..])
      modifies pods, this`deleting
      ensures AreOldest(old(pods[..]), ExcessCount(pods.Length, limit), gone)
      ensures |Names(old(pods[..])) - gone| == if pods.Length < limit then pods.Length else limit
      ensures View() == Mark(old(View()), gone, env)
    {
      ghost var listed := pods[..];
      SortByStartTime(pods);
      ghost var sorted := pods[..];
      SamePods(listed, sorted);
      gone := {};
      var i := 0;
      while i < pods.Length - limit
        invariant 0 <= i <= ExcessCount(pods.Length, limit)
        invariant pods[..] == sorted && gone == Names(sorted[..i])
        invariant View() == Mark(old(View()), gone, env)
      {
        MarkOneMore(old(View()), sorted, i, env);
        var _ := Delete(pods[i].name, env);
        gone := gone + {pods[i].name};
        i := i + 1;
      }
      PrefixIsOldest(listed, sorted, i);
      KeptAsDocumented(listed, limit, gone);
    }

    /** The whole reconcile step: its verdict, its effect on the cluster, and which finished pods it cleaned up. */
    method Reconcile(job: CronJob, env: Env) returns (v: Verdict, sweep: Sweep)
      requires env.listing.Some? ==> DistinctNames(env.listing.value)
      modifies this
      ensures v == Decide(job, env)
      ensures Sweeps(job, env, sweep)
      ensures View() == Effect(job, env, old(View()), sweep)
    {
      sweep := Sweep({}, {});
      if env.fetch != Found {
        return NotFetched(env.fetch == FetchError), sweep;
      }
      if env.listing.None? {
        return ListFailed, sweep;
      }
      var lastScheduledTime, active, failed, succeeded := Classify(job, env.listing.value);
      if !env.statusOk {
        return StatusFailed, sweep;
      }
      status := Status(References(active, env.referable), Some(lastScheduledTime));

      SelectDistinct(env.listing.value, FailedClass);
      SelectDistinct(env.listing.value, SucceededClass);
      var panicked;
      panicked, sweep := CleanUp(job, env, failed, succeeded);
      if panicked {
        return Panicked, sweep;
      }
      v := Launch(job, env, active);
    }

    /** The clean-up of both classes of finished pods, failed ones first. */
    method CleanUp(job: CronJob, env: Env, failed: seq<Pod>, succeeded: seq<Pod>) returns (panicked: bool, sweep: Sweep)
      requires DistinctNames(failed) && DistinctNames(succeeded)
      modifies this`deleting
      ensures panicked <==> LoopOverruns(job.failedLimit) || LoopOverruns(job.succeededLimit)
      ensures CleansUp(job, failed, succeeded, sweep)
      ensures View() == Mark(Mark(old(View()), sweep.failed, env), sweep.succeeded, env)
    {
      panicked := false;
      var gone, gone' := {}, {};
      if job.failedLimit.Some? {
        panicked, gone := PruneSeq(failed, job.failedLimit.value, env);
      }
      if !panicked && job.succeededLimit.Some? {
        panicked, gone' := PruneSeq(succeeded, job.succeededLimit.value, env);
      }
      sweep := Sweep(gone, gone');
    }

    /** Sorts the pods into classes and finds the latest scheduled time among them. */
    static method Classify(job: CronJob, listing: seq<Pod>)
      returns (last: Instant, active: seq<Pod>, failed: seq<Pod>, succeeded: seq<Pod>)
      ensures last == LatestScheduled(job.creation, listing)
      ensures active == Select(listing, ActiveClass)
      ensures failed == Select(listing, FailedClass)
      ensures succeeded == Select(listing, SucceededClass)
    {
      last, active, failed, succeeded := job.creation, [], [], [];
      for i := 0 to |listing|
        invariant last == LatestScheduled(job.creation, listing[..i])
        invariant active == Select(listing[..i], ActiveClass)
        invariant failed == Select(listing[..i], FailedClass)
        invariant succeeded == Select(listing[..i], SucceededClass)
      {
        var pod := listing[i];
        assert listing[..i + 1][..i] == listing[..i];
        match pod.phase {
          case Succeeded => succeeded := succeeded + [pod];
          case Failed => failed := failed + [pod];
          case _ => active := active + [pod];
        }
        var scheduled := ScheduleTime(pod);
        if scheduled.Some? && scheduled.value > last {
          last := scheduled.value;
        }
      }
      assert listing[..|listing|] == listing;
    }

    method PruneSeq(pods: seq<Pod>, limit: int, env: Env) returns (panicked: bool, gone: set<nat>)
      requires DistinctNames(pods)
      modifies this`deleting
      ensures panicked <==> LoopOverruns(Some(limit))
      ensures AreOldest(pods, PruneCount(|pods|, limit), gone)
      ensures View() == Mark(old(View()), gone, env)
    {
      var a := new Pod[|pods|](i requires 0 <= i < |pods| => pods[i]);
      assert a[..] == pods;
      panicked, gone := Prune(a, limit, env);
    }

    /** From the suspension check to the creation of the pod. */
    method Launch(job: CronJob, env: Env, active: seq<Pod>) returns (v: Verdict)
      requires env.fetch == Found && env.listing.Some? && env.statusOk && active == Listed(env, ActiveClass)
      requires !LoopOverruns(job.failedLimit) && !LoopOverruns(job.succeededLimit)
      requires status.lastSchedule == Some(LastScheduled(job, env))
      modifies this
      ensures v == Decide(job, env)
      ensures View() == Launched(job, env, old(View()))
    {
      if job.suspend == Some(true) {
        return Suspended;
      }
      var times := GetNextScheduledTime(job.schedule, job.creation, status.lastSchedule, job.startingDeadline, env.nowPlan);
      if !times.Times? {
        return NoTimes;
      }
      var requeue := Since(times.upcoming, env.nowRequeue);
      if times.missed == ZERO_TIME {
        return Idle(requeue);
      }
      if job.startingDeadline.Some? {
        var schedulingDeadline := times.missed + Wrap64(SECOND * job.startingDeadline.value);
        if schedulingDeadline < env.nowDeadline {
          return TooLate(requeue);
        }
      }
      if job.policy == Forbid && |active| > 0 {
        return Blocked(requeue);
      }
      v := StartRun(job, env, active, times.missed, requeue);
    }

    /** Replaces the active pods if the policy says so, then builds and creates the pod. */
    method StartRun(job: CronJob, env: Env, active: seq<Pod>, missed: Instant, requeue: int) returns (v: Verdict)
      modifies this
      ensures v == Outcome(job, env, active, requeue)
      ensures var s := if job.policy == Replace then Mark(old(View()), ReplacedOf(active, env), env) else old(View());
              View() == if Creates(v, env) then WithPod(job, missed, s) else s
    {
      if job.policy == Replace {
        var stopped := ReplaceActive(active, env);
        if stopped {
          return ReplaceFailed;
        }
      }
      if !env.buildOk {
        return NotBuilt(requeue);
      }
      var pod := NewPodForCronJob(job, missed, nextName);
      var createFailed := Create(pod, missed, env);
      return if createFailed then CreateFailed else Created(requeue);
    }

    /** Deletes the active pods one by one, and stops at the first reported error. */
    method ReplaceActive(active: seq<Pod>, env: Env) returns (stopped: bool)
      modifies this`deleting
      ensures stopped <==> FirstFailing(active, env.failing) < |active|
      ensures View() == Mark(old(View()), ReplacedOf(active, env), env)
    {
      var i := 0;
      while i < |active|
        invariant 0 <= i <= |active|
        invariant FirstFailing(active, env.failing) == i + FirstFailing(active[i..], env.failing)
        invariant View() == Mark(old(View()), Names(active[..i]), env)
      {
        MarkOneMore(old(View()), active, i, env);
        assert active[i..][1..] == active[i + 1..];
        var failed := Delete(active[i].name, env);
        i := i + 1;
        if failed {
          return true;
        }
      }
      assert active[..i] == active;
      stopped := false;
    }
  }
}
