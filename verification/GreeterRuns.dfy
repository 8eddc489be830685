/**
  Any number of workers, each taking the steps of a sync one at a time on whatever its caches show, while
  users edit, delete and recreate Greeters, pods make progress or disappear, and time passes.
 */
module GreeterRuns {
  import opened Options
  import opened Greeters

  /** Where a worker stands in its sync. */
  datatype Worker =
    | Idle
    | Holds(seen: Greeter)                              // has read the Greeter cache
    | NeedsPod(seen: Greeter)                           // Running: about to look up the runner pod
    | Creates(seen: Greeter)                            // the pod cache showed none
    | WillWrite(seen: Greeter, phase: Phase, clock: int)

  datatype World = World(
    server: Server,
    now: int,
    workers: map<nat, Worker>,
    shown: seq<Greeter>,        // history: what workers read from the Greeter cache
    greetings: seq<string>)     // history: the keys whose runner pod was created, each time it was

  datatype Event =
    | ReadGreeter(w: nat, seen: Greeter)
    | ReadClock(w: nat)
    | ReadPod(w: nat, found: Option<Pod>)
    | Create(w: nat)
    | Update(w: nat)
    | GiveUp(w: nat)                                    // an API call failed, or the worker died
    | Tick(now: int)
    | PodChanges(name: string, phase: PodPhase)
    | PodGoes(name: string)
    | ForeignPod(name: string, message: string)         // a pod nobody's Greeter controls
    | UserCreates(key: string, schedule: Option<int>, message: string)
    | UserEdits(key: string, schedule: Option<int>, message: string)
    | UserDeletes(key: string)

  function WorkerAt(x: World, w: nat): Worker {
    if w in x.workers then x.workers[w] else Idle
  }

  function Follow(seen: Greeter, next: Next, clock: int): Worker {
    match next
    case LooksUpPod => NeedsPod(seen)
    case Writes(phase) => WillWrite(seen, phase, clock)
    case _ => Idle
  }

  ghost predicate Happens(x: World, e: Event) {
    var s := x.server;
    match e
    case ReadGreeter(w, seen) => WorkerAt(x, w).Idle? && seen in s.greeterLog
    case ReadClock(w) => WorkerAt(x, w).Holds?
    case ReadPod(w, found) =>
      WorkerAt(x, w).NeedsPod?
      && (found.Some? ==> found.value in s.podLog && found.value.name == RunnerName(WorkerAt(x, w).seen.key))
    case Create(w) => WorkerAt(x, w).Creates?
    case Update(w) => WorkerAt(x, w).WillWrite?
    case GiveUp(w) => true
    case Tick(now) => x.now <= now
    case PodChanges(name, phase) => name in s.pods
    case PodGoes(name) => true
    case ForeignPod(name, _) => name !in s.pods
    case UserCreates(key, _, _) => key !in s.greeters
    case UserEdits(key, _, _) => key in s.greeters
    case UserDeletes(key) => true
  }

  function After(x: World, e: Event): World {
    var s := x.server;
    match e
    case ReadGreeter(w, seen) => x.(workers := x.workers[w := Holds(seen)], shown := x.shown + [seen])
    case ReadClock(w) =>
      if !WorkerAt(x, w).Holds? then x
      else
        var seen := WorkerAt(x, w).seen;
        x.(workers := x.workers[w := Follow(seen, Begin(seen, x.now), x.now)])
    case ReadPod(w, found) =>
      if !WorkerAt(x, w).NeedsPod? then x
      else
        var seen := WorkerAt(x, w).seen;
        x.(workers := x.workers[w := if found.None? then Creates(seen) else Follow(seen, WithPod(seen, found.value), x.now)])
    case Create(w) =>
      if !WorkerAt(x, w).Creates? then x
      else
        var seen := WorkerAt(x, w).seen;
        x.(server := CreatePod(s, seen), workers := x.workers[w := Idle],
           greetings := if RunnerName(seen.key) in s.pods then x.greetings else x.greetings + [seen.key])
    case Update(w) =>
      if !WorkerAt(x, w).WillWrite? then x
      else
        var job := WorkerAt(x, w);
        x.(server := WriteStatus(s, job.seen, job.phase, job.clock), workers := x.workers[w := Idle])
    case GiveUp(w) => x.(workers := x.workers[w := Idle])
    case Tick(now) => x.(now := now)
    case PodChanges(name, phase) =>
      if name in s.pods then x.(server := StorePod(s, s.pods[name].(phase := phase))) else x
    case PodGoes(name) => x.(server := s.(pods := s.pods - {name}))
    case ForeignPod(name, message) => x.(server := StorePod(s, Pod(name, None, message, PodPending)))
    case UserCreates(key, schedule, message) =>
      var g := Greeter(key, s.nextUid, s.nextVersion, schedule, message, Unset);
      x.(server := StoreGreeter(s, g).(nextUid := s.nextUid + 1))
    case UserEdits(key, schedule, message) =>
      if key in s.greeters
      then x.(server := StoreGreeter(s, s.greeters[key].(schedule := schedule, message := message, version := s.nextVersion)))
      else x
    case UserDeletes(key) => x.(server := s.(greeters := s.greeters - {key}))
  }

  function Initial(): World {
    World(Server(map[], map[], 0, 0, {}, {}, map[]), 0, map[], [], [])
  }

  ghost predicate RunFrom(x: World, xs: seq<World>, es: seq<Event>) {
    && |xs| == |es| + 1 && xs[0] == x
    && (forall i :: 0 <= i < |es| ==> Happens(xs[i], es[i]) && xs[i + 1] == After(xs[i], es[i]))
  }

  ghost predicate IsRun(xs: seq<World>, es: seq<Event>) {
    RunFrom(Initial(), xs, es)
  }

  /** Some run goes from x to x'. */
  ghost predicate Leads(x: World, x': World) {
    exists xs: seq<World>, es: seq<Event> :: RunFrom(x, xs, es) && xs[|es|] == x'
  }

  // ----- phases -----

  function Rank(p: Phase): nat {
    match p
    case Unset | Pending => 0
    case Running => 1
    case Succeeded | Failed => 2
  }

  /** From p to q without going back: the same phase, or a later stage. */
  predicate Onward(p: Phase, q: Phase) {
    p == q || Rank(p) < Rank(q)
  }

  /** Versions are unique, a uid belongs to one key, and the version stored under a key is its latest. */
  ghost predicate Versioned(s: Server) {
    && (forall g {:trigger g in s.greeterLog} :: g in s.greeterLog ==> g.version < s.nextVersion && g.uid < s.nextUid)
    && (forall g, h {:trigger g in s.greeterLog, h in s.greeterLog} ::
          g in s.greeterLog && h in s.greeterLog && g.version == h.version ==> g == h)
    && (forall k {:trigger s.greeters[k]} :: k in s.greeters ==> s.greeters[k] in s.greeterLog && s.greeters[k].key == k)
    && (forall k, g {:trigger s.greeters[k], g in s.greeterLog} ::
          k in s.greeters && g in s.greeterLog && g.uid == s.greeters[k].uid ==> g.key == k)
    && (forall k, g {:trigger s.greeters[k], g in s.greeterLog} ::
          k in s.greeters && g in s.greeterLog && g.key == k ==> g.version <= s.greeters[k].version)
  }

  /** Among the versions of one Greeter, later ones are further on, and Pending is never stored. */
  ghost predicate PhasesOnward(s: Server) {
    && (forall g, h {:trigger g in s.greeterLog, h in s.greeterLog} ::
          g in s.greeterLog && h in s.greeterLog && g.uid == h.uid && g.version <= h.version ==> Onward(g.phase, h.phase))
    && (forall g {:trigger g in s.greeterLog} :: g in s.greeterLog ==> g.phase != Pending)
  }

  // ----- explanations -----

  /** The Greeter of this uid was seen due: a version not yet running, whose schedule had been reached on some clock reading. */
  ghost predicate WasDue(s: Server, now: int, uid: nat) {
    && uid in s.launches
    && var l := s.launches[uid];
       l.due in s.greeterLog && l.due.uid == uid && Rank(l.due.phase) == 0
       && l.due.schedule.Some? && l.due.schedule.value <= l.clock <= now
  }

  ghost predicate RunningsExplained(s: Server, now: int) {
    forall g {:trigger g in s.greeterLog} :: g in s.greeterLog && Rank(g.phase) >= 1 ==> WasDue(s, now, g.uid)
  }

  /** A pod of this Greeter version: same uid and message, under the runner's name. */
  predicate RunnerOf(p: Pod, g: Greeter) {
    p.owner == Some(g.uid) && p.name == RunnerName(g.key) && p.message == g.message
  }

  ghost predicate PodsExplained(s: Server) {
    && (forall n {:trigger s.pods[n]} :: n in s.pods ==> s.pods[n] in s.podLog && s.pods[n].name == n)
    && (forall p {:trigger p in s.podLog} :: p in s.podLog && p.owner.Some? ==>
          exists g :: g in s.greeterLog && g.phase == Running && RunnerOf(p, g))
  }

  function PodPhaseFor(phase: Phase): PodPhase {
    if phase == Succeeded then PodSucceeded else PodFailed
  }

  /** Some pod controlled by this uid was seen in the phase that the Greeter reports. */
  ghost predicate SawEnd(s: Server, uid: nat, phase: Phase) {
    exists p :: p in s.podLog && p.owner == Some(uid) && p.phase == PodPhaseFor(phase)
  }

  ghost predicate EndsExplained(s: Server) {
    forall g {:trigger g in s.greeterLog} :: g in s.greeterLog && Rank(g.phase) == 2 ==> SawEnd(s, g.uid, g.phase)
  }

  /** What a worker knows, however old its snapshots are. */
  ghost predicate WorkerSound(s: Server, now: int, w: Worker) {
    match w
    case Idle => true
    case Holds(seen) => seen in s.greeterLog
    case NeedsPod(seen) => seen in s.greeterLog && seen.phase == Running
    case Creates(seen) => seen in s.greeterLog && seen.phase == Running
    case WillWrite(seen, phase, clock) =>
      && seen in s.greeterLog
      && (if phase == Running
          then Rank(seen.phase) == 0 && seen.schedule.Some? && seen.schedule.value <= clock <= now
          else Rank(phase) == 2 && seen.phase == Running && SawEnd(s, seen.uid, phase))
  }

  ghost predicate Inv(x: World) {
    && Versioned(x.server) && PhasesOnward(x.server)
    && RunningsExplained(x.server, x.now) && PodsExplained(x.server) && EndsExplained(x.server)
    && (forall w {:trigger x.workers[w]} :: w in x.workers ==> WorkerSound(x.server, x.now, x.workers[w]))
    && (forall g :: g in x.shown ==> g in x.server.greeterLog)
  }

  // ----- each kind of step keeps the invariant -----

  ghost predicate ServerInv(s: Server, now: int) {
    Versioned(s) && PhasesOnward(s) && RunningsExplained(s, now) && PodsExplained(s) && EndsExplained(s)
  }

  /** g is a fresh version that may be stored: the next version of its Greeter, or the first of a new one. */
  ghost predicate FitsNext(s: Server, g: Greeter) {
    && g.version == s.nextVersion && g.phase != Pending
    && (forall h :: h in s.greeterLog && h.uid == g.uid ==> h.key == g.key && Onward(h.phase, g.phase))
    && (forall k :: k in s.greeters && s.greeters[k].uid == g.uid ==> k == g.key)
  }

  ghost predicate Stored(s: Server, g: Greeter, s': Server) {
    && s'.greeters == s.greeters[g.key := g] && s'.greeterLog == s.greeterLog + {g} && s'.nextVersion == s.nextVersion + 1
    && s'.pods == s.pods && s'.podLog == s.podLog && s.nextUid <= s'.nextUid && g.uid < s'.nextUid
    && (forall u :: u in s.launches && u != g.uid ==> u in s'.launches && s'.launches[u] == s.launches[u])
  }

  lemma StoreVersioned(s: Server, g: Greeter, s': Server)
    requires Versioned(s) && PhasesOnward(s) && FitsNext(s, g) && Stored(s, g, s')
    ensures Versioned(s') && PhasesOnward(s')
  {
  }

  /** Storing a fitting version keeps the server's history explained. */
  lemma StoreKeeps(s: Server, now: int, g: Greeter, s': Server)
    requires ServerInv(s, now) && FitsNext(s, g) && Stored(s, g, s')
    requires Rank(g.phase) >= 1 ==> WasDue(s', now, g.uid)
    requires Rank(g.phase) == 2 ==> SawEnd(s, g.uid, g.phase)
    ensures ServerInv(s', now)
  {
    StoreVersioned(s, g, s');
    forall h | h in s'.greeterLog && Rank(h.phase) >= 1 ensures WasDue(s', now, h.uid) {
      if h.uid == g.uid && h != g {
        assert Onward(h.phase, g.phase);
      }
    }
  }

  lemma WriteStatusKeeps(s: Server, now: int, seen: Greeter, phase: Phase, clock: int)
    requires ServerInv(s, now) && WorkerSound(s, now, WillWrite(seen, phase, clock))
    ensures ServerInv(WriteStatus(s, seen, phase, clock), now)
  {
    if VersionCurrent(s, seen) {
      // The version is current, so the snapshot the worker decided on is what is stored now.
      assert s.greeters[seen.key] == seen;
      var g := seen.(phase := phase, version := s.nextVersion);
      StoreKeeps(s, now, g, WriteStatus(s, seen, phase, clock));
    }
  }

  lemma StorePodKeeps(s: Server, now: int, p: Pod)
    requires ServerInv(s, now)
    requires p.owner.Some? ==> exists g :: g in s.greeterLog && g.phase == Running && RunnerOf(p, g)
    ensures ServerInv(StorePod(s, p), now)
  {
  }

  lemma ServerKeeps(x: World, e: Event)
    requires Inv(x) && Happens(x, e)
    ensures ServerInv(After(x, e).server, After(x, e).now)
  {
    var s := x.server;
    match e {
      case Create(w) =>
        var pod := NewPodForGreeter(WorkerAt(x, w).seen);
        assert RunnerOf(pod, WorkerAt(x, w).seen);
        if pod.name !in s.pods {
          StorePodKeeps(s, x.now, pod);
        }
      case Update(w) =>
        var job := x.workers[w];
        WriteStatusKeeps(s, x.now, job.seen, job.phase, job.clock);
      case PodChanges(name, phase) =>
        var pod := s.pods[name];
        if pod.owner.Some? {
          var g :| g in s.greeterLog && g.phase == Running && RunnerOf(pod, g);
          assert RunnerOf(pod.(phase := phase), g);
        }
        StorePodKeeps(s, x.now, pod.(phase := phase));
      case ForeignPod(name, message) => StorePodKeeps(s, x.now, Pod(name, None, message, PodPending));
      case UserCreates(key, schedule, message) =>
        StoreKeeps(s, x.now, Greeter(key, s.nextUid, s.nextVersion, schedule, message, Unset), After(x, e).server);
      case UserEdits(key, schedule, message) =>
        StoreKeeps(s, x.now, s.greeters[key].(schedule := schedule, message := message, version := s.nextVersion),
                   After(x, e).server);
      case _ =>
    }
  }

  lemma WorkersKeep(x: World, e: Event, w: nat)
    requires Inv(x) && Happens(x, e) && w in After(x, e).workers
    ensures WorkerSound(After(x, e).server, After(x, e).now, After(x, e).workers[w])
  {
  }

  lemma EventKeepsInv(x: World, e: Event)
    requires Inv(x) && Happens(x, e)
    ensures Inv(After(x, e))
  {
    ServerKeeps(x, e);
    forall w | w in After(x, e).workers
      ensures WorkerSound(After(x, e).server, After(x, e).now, After(x, e).workers[w])
    {
      WorkersKeep(x, e, w);
    }
  }

  lemma {:induction false} RunKeepsInv(xs: seq<World>, es: seq<Event>, i: nat)
    requires IsRun(xs, es) && i < |xs|
    ensures Inv(xs[i])
  {
    if i > 0 {
      RunKeepsInv(xs, es, i - 1);
      EventKeepsInv(xs[i - 1], es[i - 1]);
    }
  }

  lemma {:induction false} HistoryGrows(xs: seq<World>, es: seq<Event>, i: nat, j: nat)
    requires IsRun(xs, es) && i <= j < |xs|
    ensures xs[i].server.greeterLog <= xs[j].server.greeterLog && xs[i].server.podLog <= xs[j].server.podLog
    decreases j
  {
    if i < j {
      HistoryGrows(xs, es, i, j - 1);
    }
  }

  // ----- what follows for every run -----

  /** The moves of a stored phase: from unset to Running, and from Running to one of the final phases. */
  predicate NextPhase(p: Phase, q: Phase) {
    p == q || (p == Unset && q == Running) || (p == Running && Rank(q) == 2)
  }

  /** From each state of a run to the next, a Greeter that stays keeps its uid, and its phase skips nothing. */
  lemma PhaseSteps(xs: seq<World>, es: seq<Event>, i: nat, key: string)
    requires IsRun(xs, es) && i < |es| && key in xs[i].server.greeters && key in xs[i + 1].server.greeters
    ensures xs[i].server.greeters[key].uid == xs[i + 1].server.greeters[key].uid
    ensures NextPhase(xs[i].server.greeters[key].phase, xs[i + 1].server.greeters[key].phase)
  {
    RunKeepsInv(xs, es, i);
    PhaseStep(xs[i], es[i], key);
  }

  lemma PhaseStep(x: World, e: Event, key: string)
    requires Inv(x) && Happens(x, e) && key in x.server.greeters && key in After(x, e).server.greeters
    ensures x.server.greeters[key].uid == After(x, e).server.greeters[key].uid
    ensures NextPhase(x.server.greeters[key].phase, After(x, e).server.greeters[key].phase)
  {
    if e.Update? {
      var job := x.workers[e.w];
      WritePhase(x.server, x.now, job.seen, job.phase, job.clock, key);
    }
  }

  lemma WritePhase(s: Server, now: int, seen: Greeter, phase: Phase, clock: int, key: string)
    requires ServerInv(s, now) && WorkerSound(s, now, WillWrite(seen, phase, clock)) && key in s.greeters
    ensures var s' := WriteStatus(s, seen, phase, clock);
            && key in s'.greeters && s'.greeters[key].uid == s.greeters[key].uid
            && NextPhase(s.greeters[key].phase, s'.greeters[key].phase)
  {
    if VersionCurrent(s, seen) {
      assert s.greeters[seen.key] == seen;
    }
  }

  /** A uid that was given out is never given out again. */
  lemma UidSpent(xs: seq<World>, es: seq<Event>, i: nat, j: nat, key: string)
    requires IsRun(xs, es) && i <= j < |xs| && key in xs[i].server.greeters
    ensures xs[i].server.greeters[key].uid < xs[j].server.nextUid
  {
    RunKeepsInv(xs, es, i);
    RunKeepsInv(xs, es, j);
    HistoryGrows(xs, es, i, j);
    assert xs[i].server.greeters[key] in xs[j].server.greeterLog;
  }

  lemma NewKeyNewUid(x: World, e: Event, key: string)
    requires Inv(x) && Happens(x, e) && key !in x.server.greeters && key in After(x, e).server.greeters
    ensures After(x, e).server.greeters[key].uid == x.server.nextUid
  {
  }

  lemma AppearsWithNewUid(xs: seq<World>, es: seq<Event>, k: nat, key: string)
    requires IsRun(xs, es) && k < |es| && key !in xs[k].server.greeters && key in xs[k + 1].server.greeters
    ensures xs[k + 1].server.greeters[key].uid == xs[k].server.nextUid
  {
    RunKeepsInv(xs, es, k);
    NewKeyNewUid(xs[k], es[k], key);
  }

  /** So a Greeter that is there at i and at j was there all along. */
  lemma ThereBefore(xs: seq<World>, es: seq<Event>, i: nat, j: nat, key: string)
    requires IsRun(xs, es) && i < j < |xs| && key in xs[i].server.greeters && key in xs[j].server.greeters
    requires xs[i].server.greeters[key].uid == xs[j].server.greeters[key].uid
    ensures key in xs[j - 1].server.greeters
  {
    UidSpent(xs, es, i, j - 1, key);
    if key !in xs[j - 1].server.greeters {
      AppearsWithNewUid(xs, es, j - 1, key);
    }
  }

  /** Every Greeter that has come from an unset phase to a final one was stored as Running in between. */
  lemma {:induction false} RunsInBetween(xs: seq<World>, es: seq<Event>, i: nat, j: nat, key: string)
    requires IsRun(xs, es) && i <= j < |xs| && key in xs[i].server.greeters && key in xs[j].server.greeters
    requires xs[i].server.greeters[key].uid == xs[j].server.greeters[key].uid
    requires Rank(xs[i].server.greeters[key].phase) == 0 && Rank(xs[j].server.greeters[key].phase) == 2
    ensures exists m :: i < m < j && key in xs[m].server.greeters && xs[m].server.greeters[key].phase == Running
                        && xs[m].server.greeters[key].uid == xs[i].server.greeters[key].uid
    decreases j
  {
    ThereBefore(xs, es, i, j, key);
    PhaseSteps(xs, es, j - 1, key);
    if xs[j - 1].server.greeters[key].phase != Running {
      RunsInBetween(xs, es, i, j - 1, key);
    }
  }

  /** And the stored phase never goes back, over any stretch of a run and whatever the workers had in their caches. */
  lemma PhaseOnlyMovesOn(xs: seq<World>, es: seq<Event>, i: nat, j: nat, key: string)
    requires IsRun(xs, es) && i <= j < |xs|
    requires key in xs[i].server.greeters && key in xs[j].server.greeters
    requires xs[i].server.greeters[key].uid == xs[j].server.greeters[key].uid
    ensures Onward(xs[i].server.greeters[key].phase, xs[j].server.greeters[key].phase)
  {
    RunKeepsInv(xs, es, i);
    RunKeepsInv(xs, es, j);
    HistoryGrows(xs, es, i, j);
  }

  predicate ByController(e: Event) {
    e.ReadGreeter? || e.ReadClock? || e.ReadPod? || e.Create? || e.Update? || e.GiveUp?
  }

  /** Greeters differ in phase and version only, and no pod is touched. */
  ghost predicate SpecsKept(s: Server, s': Server) {
    && s'.greeters.Keys == s.greeters.Keys
    && (forall k :: k in s.greeters ==>
          s'.greeters[k] == s.greeters[k].(phase := s'.greeters[k].phase, version := s'.greeters[k].version))
    && (forall n :: n in s.pods ==> n in s'.pods && s'.pods[n] == s.pods[n])
  }

  lemma WriteStatusKeepsSpecs(s: Server, seen: Greeter, phase: Phase, clock: int)
    requires Versioned(s)
    ensures SpecsKept(s, WriteStatus(s, seen, phase, clock))
  {
    if VersionCurrent(s, seen) {
      assert s.greeters[seen.key].key == seen.key;
    }
  }

  /** No step of the controller changes what users wrote, or which Greeters and pods there are, except by adding a runner pod. */
  lemma ControllerKeepsSpecs(x: World, e: Event)
    requires Inv(x) && Happens(x, e) && ByController(e)
    ensures SpecsKept(x.server, After(x, e).server)
  {
    match e {
      case Update(w) =>
        var job := x.workers[w];
        WriteStatusKeepsSpecs(x.server, job.seen, job.phase, job.clock);
      case _ =>
    }
  }

  /**
    No early greeting: if a pod controlled by a Greeter ever existed, then a version of that Greeter was due,
    that is, not yet running and with its schedule reached on a clock reading of the past.
   */
  lemma NoEarlyGreeting(xs: seq<World>, es: seq<Event>, i: nat, p: Pod, uid: nat)
    requires IsRun(xs, es) && i < |xs| && p in xs[i].server.podLog && p.owner == Some(uid)
    ensures WasDue(xs[i].server, xs[i].now, uid)
    ensures exists g :: g in xs[i].server.greeterLog && g.phase == Running && RunnerOf(p, g)
  {
    RunKeepsInv(xs, es, i);
  }

  /** No unexplained end: a Greeter reports Succeeded or Failed only if a pod it controls was in that phase. */
  lemma NoUnexplainedEnd(xs: seq<World>, es: seq<Event>, i: nat, key: string)
    requires IsRun(xs, es) && i < |xs| && key in xs[i].server.greeters
    requires Rank(xs[i].server.greeters[key].phase) == 2
    ensures SawEnd(xs[i].server, xs[i].server.greeters[key].uid, xs[i].server.greeters[key].phase)
  {
    RunKeepsInv(xs, es, i);
  }

  // ----- the sync as a whole -----

  /** The steps of one sync, when nothing comes in between. */
  function Uninterrupted(w: nat, seen: Greeter, now: int, cached: Option<Pod>): seq<Event> {
    match Begin(seen, now)
    case Writes(_) => [ReadGreeter(w, seen), ReadClock(w), Update(w)]
    case LooksUpPod =>
      if cached.None? then [ReadGreeter(w, seen), ReadClock(w), ReadPod(w, cached), Create(w)]
      else if WithPod(seen, cached.value).Writes? then [ReadGreeter(w, seen), ReadClock(w), ReadPod(w, cached), Update(w)]
      else [ReadGreeter(w, seen), ReadClock(w), ReadPod(w, cached)]
    case _ => [ReadGreeter(w, seen), ReadClock(w)]
  }

  function AfterAll(x: World, es: seq<Event>): World
    decreases |es|
  {
    if es == [] then x else AfterAll(After(x, es[0]), es[1..])
  }

  /** Taken one after the other, the steps do to the server what `syncGreeter` does, and leave the worker idle. */
  lemma SyncIsItsSteps(x: World, w: nat, seen: Greeter, cached: Option<Pod>)
    ensures var x' := AfterAll(x, Uninterrupted(w, seen, x.now, cached));
            x'.server == SyncSpec(x.server, seen, x.now, cached).0 && WorkerAt(x', w) == Idle
  {
    var es := Uninterrupted(w, seen, x.now, cached);
    var x1 := After(x, es[0]);
    var x2 := After(x1, es[1]);
    AfterFirst(x, es);
    AfterFirst(x1, es[1..]);
    assert es[1..][1..] == es[2..];
    match Begin(seen, x.now)
    case Writes(_) =>
      AfterOne(x2, es[2..]);
    case LooksUpPod =>
      AfterFirst(x2, es[2..]);
      assert es[2..][1..] == es[3..];
      if |es| > 3 {
        AfterOne(After(x2, es[2]), es[3..]);
      }
    case _ =>
      assert es[2..] == [];
  }

  lemma AfterOne(x: World, es: seq<Event>)
    requires |es| == 1
    ensures AfterAll(x, es) == After(x, es[0])
  {
  }

  lemma AfterFirst(x: World, es: seq<Event>)
    requires es != []
    ensures AfterAll(x, es) == AfterAll(After(x, es[0]), es[1..])
  {
  }
}
