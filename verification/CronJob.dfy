/**
  The objects the CronJob controller works on: the job, its pods, and the pods' schedule annotation.
 */
module CronJobs {
  import opened Options
  import opened CronTime

  datatype PodPhase = Pending | Running | Succeeded | Failed | Unknown

  /** The text of an annotation: an RFC 3339 time in whole seconds, or anything else. */
  datatype Text = Rfc3339(seconds: int) | Other(raw: string)

  const SCHEDULED_AT := "batch.example.org/scheduled-at"

  datatype Pod = Pod(
    name: nat,                       // the generated name, unique in the cluster
    phase: PodPhase,
    startTime: Option<Instant>,
    labels: map<string, string>,
    annotations: map<string, Text>,
    spec: string)

  datatype Policy = Allow | Forbid | Replace

  datatype Template = Template(labels: map<string, string>, annotations: map<string, Text>, spec: string)

  datatype CronJob = CronJob(
    creation: Instant,
    schedule: Option<Schedule>,      // None: the cron expression does not parse
    startingDeadline: Option<int>,   // seconds
    policy: Policy,
    suspend: Option<bool>,
    failedLimit: Option<int>,
    succeededLimit: Option<int>,
    template: Template)

  datatype Status = Status(active: seq<nat>, lastSchedule: Option<Instant>)

  predicate IsActive(pod: Pod) {
    pod.phase != Succeeded && pod.phase != Failed
  }

  /** time.Format and time.Parse with the RFC 3339 layout. */
  function FormatTime(t: Instant): Text {
    Rfc3339(t / SECOND)
  }

  function ParseTime(text: Text): Option<Instant> {
    match text
    case Rfc3339(seconds) => Some(seconds * SECOND)
    case Other(_) => None
  }

  /** The scheduled time recorded in a pod, if it is there and can be read. */
  function ScheduleTime(pod: Pod): Option<Instant> {
    if SCHEDULED_AT in pod.annotations && pod.annotations[SCHEDULED_AT] != Other("")
    then ParseTime(pod.annotations[SCHEDULED_AT])
    else None
  }

  /** The pod for one scheduled run. */
  function PodFor(job: CronJob, scheduled: Instant, name: nat): Pod {
    Pod(name, Pending, None, job.template.labels, job.template.annotations[SCHEDULED_AT := FormatTime(scheduled)],
        job.template.spec)
  }

  /** Whatever annotations the template carries, a pod remembers the whole-second time it was scheduled for. */
  lemma ScheduleTimeRoundTrip(job: CronJob, scheduled: Instant, name: nat)
    ensures ScheduleTime(PodFor(job, scheduled, name)) == Some(scheduled) <==> scheduled % SECOND == 0
  {
  }

  /** Builds the pod by copying the template's labels and annotations and adding the scheduled time. */
  method NewPodForCronJob(job: CronJob, scheduled: Instant, name: nat) returns (pod: Pod)
    ensures pod == PodFor(job, scheduled, name)
  {
    var labels: map<string, string>, annotations: map<string, Text> := map[], map[];
    var todo := job.template.labels.Keys;
    while todo != {}
      invariant todo <= job.template.labels.Keys
      invariant labels == job.template.labels - todo
      decreases todo
    {
      var k :| k in todo;
      labels := labels[k := job.template.labels[k]];
      todo := todo - {k};
    }
    todo := job.template.annotations.Keys;
    while todo != {}
      invariant todo <= job.template.annotations.Keys
      invariant annotations == job.template.annotations - todo
      decreases todo
    {
      var k :| k in todo;
      annotations := annotations[k := job.template.annotations[k]];
      todo := todo - {k};
    }
    annotations := annotations[SCHEDULED_AT := FormatTime(scheduled)];
    return Pod(name, Pending, None, labels, annotations, job.template.spec);
  }

  // ----- lists of pods -----

  function Names(pods: seq<Pod>): set<nat> {
    set p | p in pods :: p.name
  }

  predicate DistinctNames(pods: seq<Pod>) {
    forall i, j :: 0 <= i < j < |pods| ==> pods[i].name != pods[j].name
  }

  /** The pods of a list that satisfy a phase class, in list order. */
  datatype Class = ActiveClass | FailedClass | SucceededClass

  predicate InClass(pod: Pod, c: Class) {
    match c
    case ActiveClass => IsActive(pod)
    case FailedClass => pod.phase == Failed
    case SucceededClass => pod.phase == Succeeded
  }

  function Select(pods: seq<Pod>, c: Class): seq<Pod> {
    if pods == [] then []
    else Select(pods[..|pods| - 1], c) + if InClass(pods[|pods| - 1], c) then [pods[|pods| - 1]] else []
  }

  lemma {:induction false} Selected(pods: seq<Pod>, c: Class)
    ensures forall p :: p in Select(pods, c) <==> p in pods && InClass(p, c)
  {
    if pods != [] {
      var init, last := pods[..|pods| - 1], pods[|pods| - 1];
      assert pods == init + [last];
      Selected(init, c);
    }
  }

  lemma {:induction false} SelectDistinct(pods: seq<Pod>, c: Class)
    requires DistinctNames(pods)
    ensures DistinctNames(Select(pods, c))
  {
    if pods != [] {
      var init, last := pods[..|pods| - 1], pods[|pods| - 1];
      SelectDistinct(init, c);
      Selected(init, c);
      forall p | p in Select(init, c) ensures p.name != last.name {
        assert p in init;
      }
    }
  }

  /** The latest scheduled time of the listed pods, or `base` if none is later. */
  function LatestScheduled(base: Instant, pods: seq<Pod>): Instant {
    if pods == [] then base
    else
      var before, last := LatestScheduled(base, pods[..|pods| - 1]), ScheduleTime(pods[|pods| - 1]);
      if last.Some? && last.value > before then last.value else before
  }

  /** It is the maximum. */
  lemma {:induction false} LatestIsMaximum(base: Instant, pods: seq<Pod>)
    ensures var t := LatestScheduled(base, pods);
            && t >= base
            && (forall p :: p in pods && ScheduleTime(p).Some? ==> ScheduleTime(p).value <= t)
            && (t == base || exists p :: p in pods && ScheduleTime(p) == Some(t))
  {
    if pods != [] {
      var init, last := pods[..|pods| - 1], pods[|pods| - 1];
      assert pods == init + [last];
      LatestIsMaximum(base, init);
    }
  }

  /** As many names as pods, when names are distinct. */
  lemma {:induction false} NamesCount(pods: seq<Pod>)
    requires DistinctNames(pods)
    ensures |Names(pods)| == |pods|
  {
    if pods != [] {
      var init, last := pods[..|pods| - 1], pods[|pods| - 1];
      assert pods == init + [last];
      NamesCount(init);
      assert Names(pods) == Names(init) + {last.name};
    }
  }
}
