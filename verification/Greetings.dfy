/**
  How often a Greeter greets: greetings and deletions of the runner pod add up, and exactly when the controller
  can greet once more.
 */
module Greetings {
  import opened Options
  import opened Greeters
  import opened GreeterRuns

  // ----- greetings and deletions -----

  /** Step i creates the runner pod of this key. */
  ghost predicate GreetsAt(xs: seq<World>, i: nat, key: string)
    requires i + 1 < |xs|
  {
    xs[i + 1].greetings == xs[i].greetings + [key]
  }

  /** How often the pod of this name was there and disappeared, in the first n steps. */
  function Deletions(xs: seq<World>, es: seq<Event>, n: nat, name: string): nat
    requires |xs| == |es| + 1 && n <= |es|
  {
    if n == 0 then 0
    else Deletions(xs, es, n - 1, name) + if es[n - 1] == PodGoes(name) && name in xs[n - 1].server.pods then 1 else 0
  }

  /** How often someone else took this name for a pod. */
  function Intrusions(es: seq<Event>, n: nat, name: string): nat
    requires n <= |es|
  {
    if n == 0 then 0
    else Intrusions(es, n - 1, name) + if es[n - 1].ForeignPod? && es[n - 1].name == name then 1 else 0
  }

  lemma OwnRunner(key: string, other: string)
    ensures RunnerName(key) == RunnerName(other) <==> key == other
  {
    assert RunnerName(key)[..|key|] == key;
    assert RunnerName(other)[..|other|] == other;
    assert |RunnerName(key)| == |key| + 7 && |RunnerName(other)| == |other| + 7;
  }

  /**
    Nothing but greetings and foreign pods takes a runner's name and nothing but deletions frees it: what was
    created under it, less what was deleted, is what is there.
   */
  lemma {:induction false} GreetingsAddUp(xs: seq<World>, es: seq<Event>, n: nat, key: string)
    requires IsRun(xs, es) && n < |xs|
    ensures multiset(xs[n].greetings)[key] + Intrusions(es, n, RunnerName(key))
            == Deletions(xs, es, n, RunnerName(key)) + if RunnerName(key) in xs[n].server.pods then 1 else 0
  {
    if n > 0 {
      GreetingsAddUp(xs, es, n - 1, key);
      RunKeepsInv(xs, es, n - 1);
      GreetingStep(xs[n - 1], es[n - 1], key);
    }
  }

  /** What one step adds to either side. */
  lemma GreetingStep(x: World, e: Event, key: string)
    requires PodsExplained(x.server) && Happens(x, e)
    ensures var name, x' := RunnerName(key), After(x, e);
            multiset(x'.greetings)[key] + (if e.ForeignPod? && e.name == name then 1 else 0)
               + (if name in x.server.pods then 1 else 0)
               == multiset(x.greetings)[key] + (if e == PodGoes(name) && name in x.server.pods then 1 else 0)
                  + if name in x'.server.pods then 1 else 0
  {
    if e.Create? {
      OwnRunner(key, WorkerAt(x, e.w).seen.key);
    }
  }

  /** So under one key there are at most as many greetings as deletions of its runner pod, and one. */
  lemma GreetingsBounded(xs: seq<World>, es: seq<Event>, n: nat, key: string)
    requires IsRun(xs, es) && n < |xs|
    ensures multiset(xs[n].greetings)[key] <= 1 + Deletions(xs, es, n, RunnerName(key))
  {
    GreetingsAddUp(xs, es, n, key);
  }

  /** A pod stays until it is deleted. */
  lemma {:induction false} PodStays(xs: seq<World>, es: seq<Event>, i: nat, j: nat, name: string)
    requires IsRun(xs, es) && i <= j < |xs| && name in xs[i].server.pods
    requires forall k :: i <= k < j ==> es[k] != PodGoes(name)
    ensures name in xs[j].server.pods
    decreases j
  {
    if i < j {
      PodStays(xs, es, i, j - 1, name);
    }
  }

  /** A greeting takes a free name. */
  lemma GreetingTakesName(x: World, e: Event, key: string)
    requires Happens(x, e) && After(x, e).greetings == x.greetings + [key]
    ensures RunnerName(key) !in x.server.pods && RunnerName(key) in After(x, e).server.pods
    ensures e.Create? && WorkerAt(x, e.w).Creates? && WorkerAt(x, e.w).seen.key == key
  {
    assert |x.greetings + [key]| == |x.greetings| + 1;
    assert After(x, e).greetings[|x.greetings|] == key;
  }

  /** A second greeting under the same key needs the runner pod of the first one to have been deleted in between. */
  lemma GreetsAgainOnlyAfterDeletion(xs: seq<World>, es: seq<Event>, i: nat, j: nat, key: string)
    requires IsRun(xs, es) && i < j < |es| && GreetsAt(xs, i, key) && GreetsAt(xs, j, key)
    ensures exists k :: i < k < j && es[k] == PodGoes(RunnerName(key))
  {
    GreetingTakesName(xs[i], es[i], key);
    GreetingTakesName(xs[j], es[j], key);
    if forall k :: i < k < j ==> es[k] != PodGoes(RunnerName(key)) {
      PodStays(xs, es, i + 1, j, RunnerName(key));
    }
  }

  // ----- when another greeting is possible -----

  /** Steps of the controller, and time going on. */
  predicate Unaided(e: Event) {
    ByController(e) || e.Tick?
  }

  /** The latest version of this key that was read from the cache. */
  function LastRead(shown: seq<Greeter>, key: string): nat {
    if shown == [] then 0
    else
      var before, last := LastRead(shown[..|shown| - 1], key), shown[|shown| - 1];
      if last.key == key && last.version > before then last.version else before
  }

  lemma {:induction false} LastReadIsMaximum(shown: seq<Greeter>, key: string)
    ensures forall g :: g in shown && g.key == key ==> g.version <= LastRead(shown, key)
    ensures LastRead(shown, key) == 0 || exists g :: g in shown && g.key == key && g.version == LastRead(shown, key)
  {
    if shown != [] {
      var init, last := shown[..|shown| - 1], shown[|shown| - 1];
      assert shown == init + [last];
      LastReadIsMaximum(init, key);
    }
  }

  /** All workers share one cache. Unless the controller restarts, it never shows an older version again. */
  predicate Readable(x: World, g: Greeter, restarts: bool) {
    restarts || g.version >= LastRead(x.shown, g.key)
  }

  /** A step that the controller can take with nobody's help but the clock's, with restarts or without. */
  ghost predicate Takes(x: World, e: Event, restarts: bool) {
    Unaided(e) && Happens(x, e) && (e.ReadGreeter? ==> Readable(x, e.seen, restarts))
  }

  /** From x these steps can be taken one after the other, and one of them greets under the key. */
  ghost predicate GreetsBy(x: World, key: string, es: seq<Event>, restarts: bool)
    decreases |es|
  {
    && es != [] && Takes(x, es[0], restarts)
    && (After(x, es[0]).greetings == x.greetings + [key] || GreetsBy(After(x, es[0]), key, es[1..], restarts))
  }

  ghost predicate CanGreet(x: World, key: string, restarts: bool) {
    exists es :: GreetsBy(x, key, es, restarts)
  }

  /** Some worker has read g and is not done with it. */
  ghost predicate Held(x: World, g: Greeter) {
    exists w :: w in x.workers && HeldBy(x.workers[w], g)
  }

  predicate HeldBy(worker: Worker, g: Greeter) {
    (worker.Holds? || worker.NeedsPod? || worker.Creates?) && worker.seen == g
  }

  /** A Running version that a worker holds or can still read. */
  ghost predicate RunsStill(x: World, g: Greeter, key: string, restarts: bool) {
    g in x.server.greeterLog && g.key == key && g.phase == Running && (Held(x, g) || Readable(x, g, restarts))
  }

  /** There is such a version, or the stored version is not yet running and has a schedule. */
  ghost predicate MayRun(x: World, key: string, restarts: bool) {
    || (exists g :: RunsStill(x, g, key, restarts))
    || Awaits(x.server, key)
  }

  predicate Awaits(s: Server, key: string) {
    key in s.greeters && Rank(s.greeters[key].phase) == 0 && s.greeters[key].schedule.Some?
  }

  // ----- only if -----

  /** A write makes a version Running only if it was awaited. */
  lemma WriteOfAwaited(s: Server, now: int, seen: Greeter, phase: Phase, clock: int, key: string)
    requires ServerInv(s, now) && WorkerSound(s, now, WillWrite(seen, phase, clock))
    ensures var s' := WriteStatus(s, seen, phase, clock);
            && (Awaits(s', key) ==> Awaits(s, key))
            && (forall g :: g in s'.greeterLog && g.key == key && g.phase == Running ==> g in s.greeterLog || Awaits(s, key))
  {
    if VersionCurrent(s, seen) {
      assert s.greeters[seen.key] == seen;
    }
  }

  lemma NewRunning(x: World, e: Event, key: string)
    requires Inv(x) && Happens(x, e) && Unaided(e)
    ensures var s, s' := x.server, After(x, e).server;
            && (Awaits(s', key) ==> Awaits(s, key))
            && (forall g :: g in s'.greeterLog && g.key == key && g.phase == Running ==> g in s.greeterLog || Awaits(s, key))
  {
    if e.Update? {
      var job := x.workers[e.w];
      WriteOfAwaited(x.server, x.now, job.seen, job.phase, job.clock, key);
    }
  }

  /** A step reads no more than one version, and what was too old to be read stays so. */
  lemma NewlyHeld(x: World, e: Event, g: Greeter, restarts: bool)
    requires Takes(x, e, restarts) && (Held(After(x, e), g) || Readable(After(x, e), g, restarts))
    ensures Held(x, g) || Readable(x, g, restarts)
  {
    var x' := After(x, e);
    if e.ReadGreeter? {
      assert x'.shown[..|x'.shown| - 1] == x.shown;
    }
    if Held(x', g) {
      var w :| w in x'.workers && HeldBy(x'.workers[w], g);
      assert WorkerAt(x', w) == x'.workers[w];
      assert HeldBy(WorkerAt(x, w), g) || (e.ReadGreeter? && e.seen == g);
    }
  }

  /** If the name is taken, or nothing may run, no step of the controller changes that. */
  lemma StaysSilent(x: World, e: Event, key: string, restarts: bool)
    requires Inv(x) && Takes(x, e, restarts)
    requires RunnerName(key) in x.server.pods || !MayRun(x, key, restarts)
    ensures RunnerName(key) in After(x, e).server.pods || !MayRun(After(x, e), key, restarts)
  {
    if RunnerName(key) !in x.server.pods && MayRun(After(x, e), key, restarts) {
      NewRunning(x, e, key);
      var g :| RunsStill(After(x, e), g, key, restarts);
      NewlyHeld(x, e, g, restarts);
      assert RunsStill(x, g, key, restarts);
      assert false;
    }
  }

  /** A step that greets finds the name free, and is taken by a worker that holds a Running version. */
  lemma GreeterHeld(x: World, e: Event, key: string, restarts: bool)
    requires Inv(x) && Takes(x, e, restarts) && After(x, e).greetings == x.greetings + [key]
    ensures RunnerName(key) !in x.server.pods && MayRun(x, key, restarts)
  {
    GreetingTakesName(x, e, key);
    var seen := x.workers[e.w].seen;
    assert HeldBy(x.workers[e.w], seen);
    assert RunsStill(x, seen, key, restarts);
  }

  lemma {:induction false} NoGreetingBy(x: World, key: string, es: seq<Event>, restarts: bool)
    requires Inv(x) && (RunnerName(key) in x.server.pods || !MayRun(x, key, restarts))
    ensures !GreetsBy(x, key, es, restarts)
    decreases |es|
  {
    if es != [] && Takes(x, es[0], restarts) {
      if After(x, es[0]).greetings == x.greetings + [key] {
        GreeterHeld(x, es[0], key, restarts);
        assert false;
      }
      StaysSilent(x, es[0], key, restarts);
      EventKeepsInv(x, es[0]);
      NoGreetingBy(After(x, es[0]), key, es[1..], restarts);
    }
  }

  // ----- if -----

  lemma Prepend(x: World, key: string, e: Event, es: seq<Event>, restarts: bool)
    requires Takes(x, e, restarts)
    requires After(x, e).greetings == x.greetings + [key] || GreetsBy(After(x, e), key, es, restarts)
    ensures GreetsBy(x, key, [e] + es, restarts)
  {
    assert ([e] + es)[1..] == es;
  }

  /** What is left to do for a worker that holds a Running version. */
  function RestOfGreeting(w: nat, worker: Worker): seq<Event>
    decreases worker.Holds?
  {
    match worker
    case Holds(_) => [ReadClock(w)] + RestOfGreeting(w, NeedsPod(worker.seen))
    case NeedsPod(_) => [ReadPod(w, None)] + [Create(w)]
    case _ => [Create(w)]
  }

  /** Such a worker greets if the name is free. */
  lemma HolderGreets(x: World, w: nat, seen: Greeter, restarts: bool)
    requires w in x.workers && HeldBy(x.workers[w], seen) && seen.phase == Running && RunnerName(seen.key) !in x.server.pods
    ensures GreetsBy(x, seen.key, RestOfGreeting(w, x.workers[w]), restarts)
    decreases x.workers[w].Holds?, x.workers[w].NeedsPod?
  {
    match x.workers[w]
    case Holds(_) =>
      HolderGreets(After(x, ReadClock(w)), w, seen, restarts);
      Prepend(x, seen.key, ReadClock(w), RestOfGreeting(w, NeedsPod(seen)), restarts);
    case NeedsPod(_) =>
      HolderGreets(After(x, ReadPod(w, None)), w, seen, restarts);
      Prepend(x, seen.key, ReadPod(w, None), [Create(w)], restarts);
    case Creates(_) =>
      Prepend(x, seen.key, Create(w), [], restarts);
  }

  /** The steps of a worker that starts with reading this version. */
  function GreetingSteps(w: nat, seen: Greeter): seq<Event> {
    [ReadGreeter(w, seen)] + RestOfGreeting(w, Holds(seen))
  }

  /** An idle worker that reads a Running version greets if the name is free. */
  lemma ReaderGreets(x: World, w: nat, seen: Greeter, restarts: bool)
    requires WorkerAt(x, w).Idle? && seen in x.server.greeterLog && seen.phase == Running
    requires Readable(x, seen, restarts) && RunnerName(seen.key) !in x.server.pods
    ensures GreetsBy(x, seen.key, GreetingSteps(w, seen), restarts)
  {
    HolderGreets(After(x, ReadGreeter(w, seen)), w, seen, restarts);
    Prepend(x, seen.key, ReadGreeter(w, seen), RestOfGreeting(w, Holds(seen)), restarts);
  }

  /** The stored version can always be read. */
  lemma StoredIsReadable(x: World, key: string, restarts: bool)
    requires Inv(x) && key in x.server.greeters
    ensures x.server.greeters[key].key == key && Readable(x, x.server.greeters[key], restarts)
  {
    LastReadIsMaximum(x.shown, key);
  }

  /** A worker about to set the stored version to Running does so, reads it, and greets. */
  lemma GreetsAfterWrite(x: World, w: nat, key: string, clock: int, restarts: bool) returns (es: seq<Event>)
    requires Inv(x) && RunnerName(key) !in x.server.pods && key in x.server.greeters
    requires WorkerAt(x, w) == WillWrite(x.server.greeters[key], Running, clock)
    ensures GreetsBy(x, key, es, restarts)
  {
    var x1 := After(x, Update(w));
    EventKeepsInv(x, Update(w));
    StoredIsReadable(x1, key, restarts);
    ReaderGreets(x1, w, x1.server.greeters[key], restarts);
    es := GreetingSteps(w, x1.server.greeters[key]);
    Prepend(x, key, Update(w), es, restarts);
    es := [Update(w)] + es;
  }

  /** An idle worker reads the stored version when it is due, sets it to Running, and then greets. */
  lemma GreetsDue(x: World, w: nat, key: string, restarts: bool) returns (es: seq<Event>)
    requires Inv(x) && WorkerAt(x, w).Idle? && RunnerName(key) !in x.server.pods
    requires Awaits(x.server, key) && x.server.greeters[key].schedule.value <= x.now
    ensures GreetsBy(x, key, es, restarts)
  {
    var seen := x.server.greeters[key];
    StoredIsReadable(x, key, restarts);
    var x1 := After(x, ReadGreeter(w, seen));
    var x2 := After(x1, ReadClock(w));
    EventKeepsInv(x, ReadGreeter(w, seen));
    EventKeepsInv(x1, ReadClock(w));
    es := GreetsAfterWrite(x2, w, key, x.now, restarts);
    Prepend(x1, key, ReadClock(w), es, restarts);
    es := [ReadClock(w)] + es;
    Prepend(x, key, ReadGreeter(w, seen), es, restarts);
    es := [ReadGreeter(w, seen)] + es;
  }

  /** If it is not due yet, the worker waits. */
  lemma GreetsWhenDue(x: World, w: nat, key: string, restarts: bool) returns (es: seq<Event>)
    requires Inv(x) && WorkerAt(x, w).Idle? && RunnerName(key) !in x.server.pods && Awaits(x.server, key)
    ensures GreetsBy(x, key, es, restarts)
  {
    var due := x.server.greeters[key].schedule.value;
    var tick := Tick(if x.now < due then due else x.now);
    EventKeepsInv(x, tick);
    es := GreetsDue(After(x, tick), w, key, restarts);
    Prepend(x, key, tick, es, restarts);
    es := [tick] + es;
  }

  /** A worker that holds a Running version goes on; or one starts afresh, at once or when the stored version is due. */
  lemma GreetsIfMayRun(x: World, key: string, restarts: bool) returns (es: seq<Event>)
    requires Inv(x) && RunnerName(key) !in x.server.pods && MayRun(x, key, restarts)
    ensures GreetsBy(x, key, es, restarts)
  {
    if w, g :| w in x.workers && HeldBy(x.workers[w], g) && g.key == key && g.phase == Running {
      HolderGreets(x, w, g, restarts);
      es := RestOfGreeting(w, x.workers[w]);
    } else {
      var x1 := After(x, GiveUp(0));
      if g :| RunsStill(x, g, key, restarts) {
        ReaderGreets(x1, 0, g, restarts);
        es := GreetingSteps(0, g);
      } else {
        EventKeepsInv(x, GiveUp(0));
        es := GreetsWhenDue(x1, 0, key, restarts);
      }
      Prepend(x, key, GiveUp(0), es, restarts);
      es := [GiveUp(0)] + es;
    }
  }

  /**
    When the controller can greet under a key once more, with nobody's help but the clock's, from any state of any
    run: exactly when the runner's name is free, and either a worker holds a Running version or can still read one,
    or the stored version is not yet running and has a schedule. With restarts any old version can be read; without,
    none older than what was read before.
   */
  lemma AnotherGreetingExactly(xs: seq<World>, es: seq<Event>, i: nat, key: string, restarts: bool)
    requires IsRun(xs, es) && i < |xs|
    ensures CanGreet(xs[i], key, restarts) <==> RunnerName(key) !in xs[i].server.pods && MayRun(xs[i], key, restarts)
  {
    RunKeepsInv(xs, es, i);
    if RunnerName(key) !in xs[i].server.pods && MayRun(xs[i], key, restarts) {
      var more := GreetsIfMayRun(xs[i], key, restarts);
    } else if CanGreet(xs[i], key, restarts) {
      var more :| GreetsBy(xs[i], key, more, restarts);
      NoGreetingBy(xs[i], key, more, restarts);
    }
  }

  /** While a Greeter is stored as Running and its runner's name is free, an idle worker that reads it as it is greets. */
  lemma StoredRunningGreets(xs: seq<World>, es: seq<Event>, i: nat, key: string, w: nat)
    requires IsRun(xs, es) && i < |xs| && WorkerAt(xs[i], w).Idle? && RunnerName(key) !in xs[i].server.pods
    requires key in xs[i].server.greeters && xs[i].server.greeters[key].phase == Running
    ensures GreetsBy(xs[i], key, GreetingSteps(w, xs[i].server.greeters[key]), false)
  {
    RunKeepsInv(xs, es, i);
    StoredIsReadable(xs[i], key, false);
    ReaderGreets(xs[i], w, xs[i].server.greeters[key], false);
  }

  // ----- a run with any number of greetings -----

  /** One Greeter, the only one there ever was, has greeted n times, is stored with this phase, and has its runner pod. */
  ghost predicate Greeted(x: World, g: Greeter, phase: Phase, n: nat) {
    && x.server.nextUid == 1 && x.greetings == seq(n, _ => g.key)
    && g.key in x.server.greeters && x.server.greeters[g.key].uid == g.uid && x.server.greeters[g.key].phase == phase
    && RunnerName(g.key) in x.server.pods && x.server.pods[RunnerName(g.key)].owner == Some(g.uid)
  }

  /** No read showed an older version than one before it. */
  predicate Forward(shown: seq<Greeter>) {
    forall a, b :: 0 <= a < b < |shown| && shown[a].key == shown[b].key ==> shown[a].version <= shown[b].version
  }

  /** The cache never went back, and an idle worker may read the Running version g. */
  ghost predicate Ready(x: World, g: Greeter) {
    && WorkerAt(x, 0).Idle? && g in x.server.greeterLog && g.phase == Running
    && Forward(x.shown) && (forall r :: r in x.shown ==> r.version <= g.version)
  }

  ghost predicate Poised(x0: World, x: World, g: Greeter) {
    Leads(x0, x) && Ready(x, g)
  }

  lemma GoOn(x0: World, x: World, e: Event) returns (x': World)
    requires Leads(x0, x) && Happens(x, e)
    ensures x' == After(x, e) && Leads(x0, x')
  {
    x' := After(x, e);
    var xs: seq<World>, es: seq<Event> :| RunFrom(x0, xs, es) && xs[|es|] == x;
    assert RunFrom(x0, xs + [x'], es + [e]);
  }

  lemma LeadsToItself(x: World)
    ensures Leads(x, x)
  {
    assert RunFrom(x, [x], []);
  }

  /** The Greeter of the run, in its first two versions. */
  function Version(key: string, schedule: int, message: string, phase: Phase): Greeter {
    Greeter(key, 0, Rank(phase), Some(schedule), message, phase)
  }

  /** A Greeter is created and becomes due. */
  lemma BecomesDue(key: string, schedule: int, message: string) returns (x: World)
    ensures var g := Version(key, schedule, message, Unset);
            && Leads(Initial(), x) && x.now >= schedule && WorkerAt(x, 0).Idle? && x.shown == [] && x.greetings == []
            && x.server == Server(map[key := g], map[], 1, 1, {g}, {}, map[])
  {
    LeadsToItself(Initial());
    x := GoOn(Initial(), Initial(), UserCreates(key, Some(schedule), message));
    if schedule > 0 {
      x := GoOn(Initial(), x, Tick(schedule));
    }
  }

  /** It is set to Running. */
  lemma BecomesRunning(key: string, schedule: int, message: string) returns (x: World)
    ensures var g := Version(key, schedule, message, Running);
            && Poised(Initial(), x, g) && x.server.nextUid == 1 && x.greetings == []
            && x.server.greeters == map[key := g] && x.server.pods == map[]
  {
    var seen := Version(key, schedule, message, Unset);
    x := BecomesDue(key, schedule, message);
    x := GoOn(Initial(), x, ReadGreeter(0, seen));
    x := GoOn(Initial(), x, ReadClock(0));
    assert WorkerAt(x, 0) == WillWrite(seen, Running, x.now);
    x := GoOn(Initial(), x, Update(0));
  }

  /** A worker greets from the Running version, whatever is stored by now. */
  lemma GreetsOnce(x0: World, x: World, g: Greeter) returns (x': World)
    requires Poised(x0, x, g) && RunnerName(g.key) !in x.server.pods
    ensures Poised(x0, x', g) && x'.server.greeters == x.server.greeters && x'.server.nextUid == x.server.nextUid
    ensures x'.server.pods == x.server.pods[RunnerName(g.key) := NewPodForGreeter(g)]
    ensures x'.greetings == x.greetings + [g.key]
  {
    x' := GoOn(x0, x, ReadGreeter(0, g));
    x' := GoOn(x0, x', ReadClock(0));
    x' := GoOn(x0, x', ReadPod(0, None));
    x' := GoOn(x0, x', Create(0));
  }

  /** Its pod comes to an end. */
  lemma PodEnds(x0: World, x: World, g: Greeter, phase: Phase) returns (x': World)
    requires Poised(x0, x, g) && RunnerName(g.key) in x.server.pods
    requires x.server.pods[RunnerName(g.key)] == NewPodForGreeter(g)
    ensures var done := NewPodForGreeter(g).(phase := PodPhaseFor(phase));
            && Poised(x0, x', g) && done in x'.server.podLog && x'.greetings == x.greetings
            && x'.server == x.server.(pods := x.server.pods[RunnerName(g.key) := done], podLog := x'.server.podLog)
  {
    x' := GoOn(x0, x, PodChanges(RunnerName(g.key), PodPhaseFor(phase)));
  }

  /** A worker sees that. */
  lemma EndSeen(x0: World, x: World, g: Greeter, phase: Phase) returns (x': World)
    requires Poised(x0, x, g) && Rank(phase) == 2
    requires NewPodForGreeter(g).(phase := PodPhaseFor(phase)) in x.server.podLog
    ensures Leads(x0, x') && Ready(x'.(workers := x.workers), g) && WorkerAt(x', 0) == WillWrite(g, phase, x'.now)
    ensures x'.server == x.server && x'.greetings == x.greetings
  {
    x' := GoOn(x0, x, ReadGreeter(0, g));
    x' := GoOn(x0, x', ReadClock(0));
    x' := GoOn(x0, x', ReadPod(0, Some(NewPodForGreeter(g).(phase := PodPhaseFor(phase)))));
  }

  /** And the Greeter comes to the same end. */
  lemma GreeterEnds(x0: World, x: World, g: Greeter, phase: Phase) returns (x': World)
    requires Poised(x0, x, g) && g.key in x.server.greeters && x.server.greeters[g.key] == g && Rank(phase) == 2
    requires NewPodForGreeter(g).(phase := PodPhaseFor(phase)) in x.server.podLog
    ensures Poised(x0, x', g) && x'.server.pods == x.server.pods && x'.greetings == x.greetings
    ensures x'.server.nextUid == x.server.nextUid
    ensures g.key in x'.server.greeters && x'.server.greeters[g.key].uid == g.uid && x'.server.greeters[g.key].phase == phase
  {
    x' := EndSeen(x0, x, g, phase);
    x' := GoOn(x0, x', Update(0));
  }

  /** The first greeting; then the Greeter stays Running, or reaches one of the final phases. */
  lemma FirstGreeting(key: string, schedule: int, message: string, phase: Phase) returns (x: World)
    requires Rank(phase) >= 1
    ensures var g := Version(key, schedule, message, Running);
            Poised(Initial(), x, g) && Greeted(x, g, phase, 1)
  {
    var g := Version(key, schedule, message, Running);
    x := BecomesRunning(key, schedule, message);
    x := GreetsOnce(Initial(), x, g);
    if phase != Running {
      x := PodEnds(Initial(), x, g, phase);
      x := GreeterEnds(Initial(), x, g, phase);
    }
  }

  /** The runner pod is deleted, and the same Greeter greets again. */
  lemma NextGreeting(x: World, g: Greeter, phase: Phase, n: nat) returns (x': World)
    requires Ready(x, g) && Greeted(x, g, phase, n)
    ensures Poised(x, x', g) && Greeted(x', g, phase, n + 1)
  {
    LeadsToItself(x);
    x' := GoOn(x, x, PodGoes(RunnerName(g.key)));
    x' := GreetsOnce(x, x', g);
    assert seq(n + 1, _ => g.key) == seq(n, _ => g.key) + [g.key];
  }

  /**
    "A Greeter greets once" is false for every number of greetings, for a Greeter that is still stored as Running as
    well as for one in a final phase, and even if the cache never goes back: in one run, which passes the worlds
    `marks` one after the other, the only Greeter there ever was has the given phase and has greeted once at the
    first mark, twice at the second, and so on.
   */
  lemma {:induction false} GreetsOften(key: string, schedule: int, message: string, phase: Phase, n: nat)
    returns (marks: seq<World>)
    requires n >= 1 && Rank(phase) >= 1
    ensures |marks| == n && Leads(Initial(), marks[0])
    ensures forall k {:trigger marks[k]} :: 0 < k < n ==> Leads(marks[k - 1], marks[k])
    ensures forall k {:trigger marks[k]} :: 0 <= k < n ==>
              Greeted(marks[k], Version(key, schedule, message, Running), phase, k + 1) && Forward(marks[k].shown)
    ensures Ready(marks[n - 1], Version(key, schedule, message, Running))
  {
    var g := Version(key, schedule, message, Running);
    if n == 1 {
      var x := FirstGreeting(key, schedule, message, phase);
      marks := [x];
    } else {
      marks := GreetsOften(key, schedule, message, phase, n - 1);
      var x := NextGreeting(marks[n - 2], g, phase, n - 1);
      marks := marks + [x];
    }
  }
}
