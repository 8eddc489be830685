/**
  The Greeter controller: a phase machine driven by workers that read lagging caches and write through a
  server that checks versions.
 */
module Greeters {
  import opened Options

  datatype Phase = Unset | Pending | Running | Succeeded | Failed

  datatype Greeter = Greeter(
    key: string,               // namespace/name
    uid: nat,
    version: nat,              // resource version, unique over the whole server
    schedule: Option<int>,     // None: the schedule does not parse
    message: string,
    phase: Phase)

  datatype PodPhase = PodPending | PodRunning | PodSucceeded | PodFailed | PodUnknown

  datatype Pod = Pod(name: string, owner: Option<nat>, message: string, phase: PodPhase)

  function RunnerName(key: string): string {
    key + "-runner"
  }

  function NewPodForGreeter(g: Greeter): Pod {
    Pod(RunnerName(g.key), Some(g.uid), g.message, PodPending)
  }

  // ----- one sync, decision by decision -----

  datatype Next = Fails | WaitFor(duration: int) | LooksUpPod | Writes(phase: Phase) | Finished

  function TimeUntilSchedule(schedule: Option<int>, now: int): Option<int> {
    if schedule.None? then None else Some(schedule.value - now)
  }

  /** What a sync does with the Greeter it read. An unset phase counts as pending. */
  function Begin(seen: Greeter, now: int): Next {
    match seen.phase
    case Unset | Pending =>
      var until := TimeUntilSchedule(seen.schedule, now);
      if until.None? then Fails else if until.value > 0 then WaitFor(until.value) else Writes(Running)
    case Running => LooksUpPod
    case Succeeded | Failed => Finished
  }

  /** What it does with the runner pod it found or created. */
  function WithPod(seen: Greeter, found: Pod): Next {
    if found.owner != Some(seen.uid) then Fails
    else
      match found.phase
      case PodSucceeded => Writes(Succeeded)
      case PodFailed => Writes(Failed)
      case _ => Finished
  }

  // ----- the server -----

  /** Why a Greeter was set to Running: the version that was due, and the clock reading that said so. */
  datatype Launch = Launch(due: Greeter, clock: int)

  datatype Server = Server(
    greeters: map<string, Greeter>,
    pods: map<string, Pod>,
    nextVersion: nat,
    nextUid: nat,
    greeterLog: set<Greeter>,     // history: every version of every Greeter; a cache may serve any of them
    podLog: set<Pod>,             // history: every state of every pod; likewise
    launches: map<nat, Launch>)   // history: by uid

  function StoreGreeter(s: Server, g: Greeter): Server {
    s.(greeters := s.greeters[g.key := g], greeterLog := s.greeterLog + {g}, nextVersion := s.nextVersion + 1)
  }

  function StorePod(s: Server, p: Pod): Server {
    s.(pods := s.pods[p.name := p], podLog := s.podLog + {p})
  }

  predicate VersionCurrent(s: Server, seen: Greeter) {
    seen.key in s.greeters && s.greeters[seen.key].version == seen.version
  }

  /** UpdateStatus: refused unless the version is current; otherwise only the status changes. */
  function WriteStatus(s: Server, seen: Greeter, phase: Phase, clock: int): Server {
    if !VersionCurrent(s, seen) then s
    else
      var stored := s.greeters[seen.key].(phase := phase, version := s.nextVersion);
      var s' := StoreGreeter(s, stored);
      if phase == Running then s'.(launches := s'.launches[seen.uid := Launch(seen, clock)]) else s'
  }

  function CreatePod(s: Server, seen: Greeter): Server {
    var pod := NewPodForGreeter(seen);
    if pod.name in s.pods then s else StorePod(s, pod)
  }

  // ----- the sync as the controller runs it -----

  datatype SyncResult = Synced | RequeueAfter(duration: int) | SyncError

  /** The whole sync of one Greeter, if nothing comes between its steps: its effect and its answer. */
  function SyncSpec(s: Server, seen: Greeter, now: int, cached: Option<Pod>): (Server, SyncResult) {
    match Begin(seen, now)
    case Fails => (s, SyncError)
    case WaitFor(d) => (s, RequeueAfter(d))
    case Finished => (s, Synced)
    case Writes(phase) => WriteSpec(s, seen, phase, now)
    case LooksUpPod =>
      if cached.None? then
        if RunnerName(seen.key) in s.pods then (s, SyncError) else (CreatePod(s, seen), Synced)
      else
        match WithPod(seen, cached.value)
        case Writes(phase) => WriteSpec(s, seen, phase, now)
        case Finished => (s, Synced)
        case _ => (s, SyncError)
  }

  function WriteSpec(s: Server, seen: Greeter, phase: Phase, now: int): (Server, SyncResult) {
    (WriteStatus(s, seen, phase, now), if VersionCurrent(s, seen) then Synced else SyncError)
  }

  // ----- the answer of a sync, exactly -----

  /** The phase the Greeter should be in, by its schedule or by its runner pod, if it is another than the one it has. */
  function NewPhase(seen: Greeter, now: int, cached: Option<Pod>): Option<Phase> {
    if (seen.phase == Unset || seen.phase == Pending) && seen.schedule.Some? && seen.schedule.value <= now then Some(Running)
    else if seen.phase == Running && cached.Some? && cached.value.owner == Some(seen.uid)
            && cached.value.phase == PodSucceeded then Some(Succeeded)
    else if seen.phase == Running && cached.Some? && cached.value.owner == Some(seen.uid)
            && cached.value.phase == PodFailed then Some(Failed)
    else None
  }

  /**
    A sync is retried with an error if and only if the schedule of a Greeter that is not yet running does not parse, the
    name of the runner pod is taken when the pod must be created, the runner pod is not controlled by the Greeter, or a
    new phase had to be written and what was read is out of date. It comes back after a while if and only if the Greeter
    is not yet running and not due, and then just when it is due.
   */
  lemma SyncAnswers(s: Server, seen: Greeter, now: int, cached: Option<Pod>)
    ensures var r, waiting := SyncSpec(s, seen, now, cached).1, seen.phase == Unset || seen.phase == Pending;
            var current := seen.key in s.greeters && s.greeters[seen.key].version == seen.version;
            && (r.SyncError? <==>
                  || (waiting && seen.schedule.None?)
                  || (seen.phase == Running && cached.None? && seen.key + "-runner" in s.pods)
                  || (seen.phase == Running && cached.Some? && cached.value.owner != Some(seen.uid))
                  || (NewPhase(seen, now, cached).Some? && !current))
            && (r.RequeueAfter? <==> waiting && seen.schedule.Some? && now < seen.schedule.value)
            && (r.RequeueAfter? ==> now + r.duration == seen.schedule.value)
  {
  }

  /** What a sync that must be retried or comes back leaves behind: nothing. */
  lemma OnlySyncedChanges(s: Server, seen: Greeter, now: int, cached: Option<Pod>)
    ensures var (s', r) := SyncSpec(s, seen, now, cached);
            !r.Synced? ==> s' == s
  {
  }

  /**
    What one that is done leaves behind: a new phase is what the server now stores, in a new version that is otherwise
    the old one; a runner pod that was missing is there, for this Greeter and with its message; nothing else has changed.
   */
  lemma SyncedMeans(s: Server, seen: Greeter, now: int, cached: Option<Pod>)
    requires seen.key in s.greeters ==> s.greeters[seen.key].key == seen.key
    requires SyncSpec(s, seen, now, cached).1.Synced?
    ensures var s', phase, name := SyncSpec(s, seen, now, cached).0, NewPhase(seen, now, cached), seen.key + "-runner";
            && s'.greeters.Keys == s.greeters.Keys
            && (forall k :: k in s.greeters && (k != seen.key || phase.None?) ==> s'.greeters[k] == s.greeters[k])
            && (phase.Some? ==>
                  && seen.key in s.greeters && s.greeters[seen.key].version == seen.version
                  && s'.greeters[seen.key] == s.greeters[seen.key].(phase := phase.value, version := s.nextVersion))
            && (if seen.phase == Running && cached.None? then
                  && s'.pods.Keys == s.pods.Keys + {name} && name !in s.pods
                  && (forall n :: n in s.pods ==> s'.pods[n] == s.pods[n])
                  && s'.pods[name].name == name && s'.pods[name].owner == Some(seen.uid) && s'.pods[name].message == seen.message
                else s'.pods == s.pods)
  {
  }

  class ApiServer {
    var greeters: map<string, Greeter>
    var pods: map<string, Pod>
    var nextVersion: nat
    ghost var nextUid: nat
    ghost var greeterLog: set<Greeter>
    ghost var podLog: set<Pod>
    ghost var launches: map<nat, Launch>

    ghost function View(): Server
      reads this
    {
      Server(greeters, pods, nextVersion, nextUid, greeterLog, podLog, launches)
    }

    method UpdateStatus(instance: Greeter, ghost seen: Greeter, ghost clock: int) returns (ok: bool)
      requires instance == seen.(phase := instance.phase)
      requires seen.key in greeters ==> greeters[seen.key].key == seen.key
      modifies this
      ensures View() == WriteStatus(old(View()), seen, instance.phase, clock)
      ensures ok <==> VersionCurrent(old(View()), seen)
    {
      ok := instance.key in greeters && greeters[instance.key].version == instance.version;
      if ok {
        var stored := greeters[instance.key].(phase := instance.phase, version := nextVersion);
        greeters := greeters[instance.key := stored];
        nextVersion := nextVersion + 1;
        greeterLog := greeterLog + {stored};
        if instance.phase == Running {
          launches := launches[seen.uid := Launch(seen, clock)];
        }
      }
    }

    method Create(pod: Pod) returns (ok: bool)
      modifies this
      ensures ok <==> pod.name !in old(pods)
      ensures View() == if ok then StorePod(old(View()), pod) else old(View())
    {
      ok := pod.name !in pods;
      if ok {
        pods := pods[pod.name := pod];
        podLog := podLog + {pod};
      }
    }

    /** The sync of one Greeter as read from the cache; `cached` is what the pod cache shows under the runner's name. */
    method SyncGreeter(greeter: Greeter, now: int, cached: Option<Pod>) returns (r: SyncResult)
      requires greeter.key in greeters ==> greeters[greeter.key].key == greeter.key
      modifies this
      ensures (View(), r) == SyncSpec(old(View()), greeter, now, cached)
    {
      var instance := greeter;
      if instance.phase == Unset {
        instance := instance.(phase := Pending);
      }
      match instance.phase {
        case Pending =>
          var when := TimeUntilSchedule(instance.schedule, now);
          if when.None? {
            return SyncError;
          }
          if when.value > 0 {
            return RequeueAfter(when.value);
          }
          instance := instance.(phase := Running);
        case Running =>
          var found: Pod;
          if cached.None? {
            found := NewPodForGreeter(instance);
            var created := Create(found);
            if !created {
              return SyncError;
            }
          } else {
            found := cached.value;
          }
          if found.owner != Some(instance.uid) {
            return SyncError;
          }
          if found.phase == PodSucceeded {
            instance := instance.(phase := Succeeded);
          } else if found.phase == PodFailed {
            instance := instance.(phase := Failed);
          }
        case _ =>
      }
      if greeter != instance {
        var ok := UpdateStatus(instance, greeter, now);
        if !ok {
          return SyncError;
        }
      }
      return Synced;
    }
  }
}
