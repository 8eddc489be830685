/**
  The shared informer factory: informers are created on demand, started once, and waited for at shutdown.
  Every method body is one critical section, except that shutting down waits outside the lock.
 */
module Factories {
  type Type = string

  /** An informer, by identity, with the resync period it was made with. */
  datatype Informer = Informer(id: nat, resync: int)

  datatype Factory = Factory(
    defaultResync: int,
    customResync: map<Type, int>,
    informers: map<Type, Informer>,
    started: set<Type>,
    shuttingDown: bool,
    wg: nat,                              // the wait group's counter
    running: set<Type>,                   // goroutines that are running an informer
    launches: multiset<Type>,             // history: goroutines ever started, by the type of their informer
    returned: bool)                       // history: some call of Shutdown has returned

  datatype Event =
    | InformerFor(t: Type, id: nat)
    | Start
    | Flag            // Shutdown marks the factory
    | Return          // Shutdown stops waiting
    | Exit(t: Type)   // a goroutine ends

  function New(defaultResync: int, customResync: map<Type, int>): Factory {
    Factory(defaultResync, customResync, map[], {}, false, 0, {}, multiset{}, false)
  }

  function WithInformer(f: Factory, t: Type, id: nat): Factory {
    if t in f.informers then f
    else f.(informers := f.informers[t := Informer(id, if t in f.customResync then f.customResync[t] else f.defaultResync)])
  }

  /** The factory after starting the given types. */
  function WithStarted(f: Factory, types: set<Type>): Factory {
    f.(started := f.started + types, wg := f.wg + |types|, running := f.running + types,
       launches := f.launches + multiset(types))
  }

  function OneMore(f: Factory, t: Type): Factory {
    f.(started := f.started + {t}, wg := f.wg + 1, running := f.running + {t}, launches := f.launches + multiset{t})
  }

  lemma OneMoreStarted(f: Factory, done: set<Type>, t: Type)
    requires t !in done
    ensures OneMore(WithStarted(f, done), t) == WithStarted(f, done + {t})
  {
  }

  function Started(f: Factory): Factory {
    if f.shuttingDown then f else WithStarted(f, f.informers.Keys - f.started)
  }

  ghost predicate Happens(f: Factory, e: Event) {
    match e
    case Return => f.shuttingDown && f.wg == 0
    case Exit(t) => t in f.running
    case _ => true
  }

  function After(f: Factory, e: Event): Factory {
    match e
    case InformerFor(t, id) => WithInformer(f, t, id)
    case Start => Started(f)
    case Flag => f.(shuttingDown := true)
    case Return => f.(returned := true)
    case Exit(t) => f.(running := f.running - {t}, wg := if f.wg > 0 then f.wg - 1 else 0)
  }

  ghost predicate IsRun(fs: seq<Factory>, es: seq<Event>) {
    && |fs| == |es| + 1 && (exists d, c :: fs[0] == New(d, c))
    && (forall i :: 0 <= i < |es| ==> Happens(fs[i], es[i]) && fs[i + 1] == After(fs[i], es[i]))
  }

  ghost predicate Inv(f: Factory) {
    && f.running <= f.started <= f.informers.Keys
    && f.wg == |f.running|
    && f.launches == multiset(f.started)
    && (f.returned ==> f.shuttingDown && f.running == {})
  }

  lemma EventKeepsInv(f: Factory, e: Event)
    requires Inv(f) && Happens(f, e)
    ensures Inv(After(f, e))
  {
    var f' := After(f, e);
    match e {
      case Start =>
        if !f.shuttingDown {
          StartingKeepsInv(f, f.informers.Keys - f.started);
        }
      case _ =>
    }
  }

  lemma StartingKeepsInv(f: Factory, types: set<Type>)
    requires Inv(f) && !f.shuttingDown && types <= f.informers.Keys && types !! f.started
    ensures Inv(WithStarted(f, types))
  {
  }

  lemma {:induction false} RunKeepsInv(fs: seq<Factory>, es: seq<Event>, i: nat)
    requires IsRun(fs, es) && i < |fs|
    ensures Inv(fs[i])
  {
    if i > 0 {
      RunKeepsInv(fs, es, i - 1);
      EventKeepsInv(fs[i - 1], es[i - 1]);
    }
  }

  /** No type is ever started twice, and only types that have an informer are. */
  lemma StartedAtMostOnce(fs: seq<Factory>, es: seq<Event>, i: nat, t: Type)
    requires IsRun(fs, es) && i < |fs|
    ensures fs[i].launches[t] <= 1
    ensures fs[i].launches[t] == 1 <==> t in fs[i].started
    ensures t in fs[i].started ==> t in fs[i].informers
    ensures fs[i].wg == |fs[i].running| && fs[i].running <= fs[i].started
  {
    RunKeepsInv(fs, es, i);
  }

  ghost predicate Later(f: Factory, g: Factory) {
    && (forall t {:trigger t in f.informers} :: t in f.informers ==> t in g.informers && g.informers[t] == f.informers[t])
    && f.started <= g.started
    && (f.shuttingDown ==> g.shuttingDown && g.launches == f.launches && g.wg <= f.wg)
    && (f.returned ==> g.returned && g.running == {})
  }

  lemma EventGoesOn(f: Factory, e: Event)
    requires Inv(f) && Happens(f, e)
    ensures Later(f, After(f, e))
  {
  }

  ghost predicate GoesOn(fs: seq<Factory>, k: nat)
    requires k + 1 < |fs|
  {
    Later(fs[k], fs[k + 1])
  }

  lemma {:induction false} LaterByAndBy(fs: seq<Factory>, i: nat, j: nat)
    requires i <= j < |fs| && Later(fs[i], fs[i])
    requires forall k {:trigger GoesOn(fs, k)} :: i <= k < j ==> GoesOn(fs, k)
    ensures Later(fs[i], fs[j])
    decreases j
  {
    if i < j {
      LaterByAndBy(fs, i, j - 1);
      assert GoesOn(fs, j - 1);
      LaterIsTransitive(fs[i], fs[j - 1], fs[j]);
    }
  }

  /**
    Over time: a type keeps its informer for life; once the factory is shutting down nothing is started any
    more; and once a call of Shutdown has returned, no goroutine runs, now or later.
   */
  lemma OverTime(fs: seq<Factory>, es: seq<Event>, i: nat, j: nat)
    requires IsRun(fs, es) && i <= j < |fs|
    ensures Later(fs[i], fs[j])
  {
    RunKeepsInv(fs, es, i);
    LaterThanItself(fs[i]);
    forall k | i <= k < j ensures GoesOn(fs, k) {
      RunKeepsInv(fs, es, k);
      EventGoesOn(fs[k], es[k]);
    }
    LaterByAndBy(fs, i, j);
  }

  lemma LaterThanItself(f: Factory)
    requires Inv(f)
    ensures Later(f, f)
  {
  }

  lemma LaterIsTransitive(f: Factory, g: Factory, h: Factory)
    requires Later(f, g) && Later(g, h)
    ensures Later(f, h)
  {
  }

  // ----- what every event does, exactly -----

  /**
    Right after a Start on a factory that is not shutting down, every type that has an informer is started: those that
    were not gain one launch and one running goroutine each, and the others gain nothing. On a factory that is shutting
    down, nothing happens.
   */
  lemma StartStartsAll(fs: seq<Factory>, es: seq<Event>, i: nat)
    requires IsRun(fs, es) && i < |es| && es[i] == Start
    ensures fs[i].shuttingDown ==> fs[i + 1] == fs[i]
    ensures !fs[i].shuttingDown ==> fs[i + 1].started == fs[i].informers.Keys
    ensures !fs[i].shuttingDown ==> forall t ::
              var added := t in fs[i].informers && t !in fs[i].started;
              && fs[i + 1].launches[t] == fs[i].launches[t] + (if added then 1 else 0)
              && (t in fs[i + 1].running <==> t in fs[i].running || added)
    ensures fs[i + 1].informers == fs[i].informers && fs[i + 1].shuttingDown == fs[i].shuttingDown
    ensures fs[i + 1].wg == |fs[i + 1].running|
  {
    RunKeepsInv(fs, es, i);
    RunKeepsInv(fs, es, i + 1);
  }

  /** Nothing but Start starts anything, and goroutines end one at a time. */
  lemma OnlyStartStarts(fs: seq<Factory>, es: seq<Event>, i: nat)
    requires IsRun(fs, es) && i < |es| && es[i] != Start
    ensures fs[i + 1].started == fs[i].started && fs[i + 1].launches == fs[i].launches
    ensures fs[i + 1].running == fs[i].running - (if es[i].Exit? then {es[i].t} else {})
    ensures fs[i + 1].shuttingDown <==> fs[i].shuttingDown || es[i] == Flag
  {
  }

  /** In every state each informer has the resync period that was configured for its type, or else the default one. */
  lemma {:induction false} ResyncAsConfigured(fs: seq<Factory>, es: seq<Event>, i: nat)
    requires IsRun(fs, es) && i < |fs|
    ensures fs[i].defaultResync == fs[0].defaultResync && fs[i].customResync == fs[0].customResync
    ensures forall t :: t in fs[i].informers ==>
              fs[i].informers[t].resync
              == if t in fs[0].customResync then fs[0].customResync[t] else fs[0].defaultResync
  {
    if i > 0 {
      ResyncAsConfigured(fs, es, i - 1);
    }
  }

  /** A request for an informer makes one for that type if it has none, and changes no other. */
  lemma InformerForMakesOne(fs: seq<Factory>, es: seq<Event>, i: nat)
    requires IsRun(fs, es) && i < |es| && es[i].InformerFor?
    ensures var t, f, f' := es[i].t, fs[i], fs[i + 1];
            && t in f'.informers && (t in f.informers ==> f' == f)
            && (t !in f.informers ==> f'.informers[t].id == es[i].id)
            && (forall u :: u != t ==> (u in f'.informers <==> u in f.informers))
            && (forall u :: u in f.informers ==> f'.informers[u] == f.informers[u])
  {
  }

  /** A call of Shutdown can return if and only if the factory is flagged and every goroutine ever started has ended. */
  lemma ReturnsWhenDone(fs: seq<Factory>, es: seq<Event>, i: nat)
    requires IsRun(fs, es) && i < |fs|
    ensures Happens(fs[i], Return) <==> fs[i].shuttingDown && fs[i].running == {}
  {
    RunKeepsInv(fs, es, i);
  }

  // ----- the factory on the heap -----

  class SharedInformerFactory {
    const defaultResync: int
    const customResync: map<Type, int>
    var informers: map<Type, Informer>
    var startedInformers: map<Type, bool>
    var shuttingDown: bool
    var wg: nat
    ghost var running: set<Type>
    ghost var launches: multiset<Type>
    ghost var returned: bool

    ghost function View(): Factory
      reads this
    {
      Factory(defaultResync, customResync, informers, startedInformers.Keys, shuttingDown, wg, running, launches, returned)
    }

    ghost predicate Valid()
      reads this
    {
      Inv(View()) && AllTrue(startedInformers)
    }

    /** Only true is ever stored. */
    ghost static predicate AllTrue(m: map<Type, bool>) {
      forall t :: t in m ==> m[t]
    }

    constructor (defaultResync: int, customResync: map<Type, int>)
      ensures View() == New(defaultResync, customResync) && Valid()
    {
      this.defaultResync, this.customResync := defaultResync, customResync;
      informers, startedInformers, shuttingDown, wg := map[], map[], false, 0;
      running, launches, returned := {}, multiset{}, false;
    }

    /** The informer of a type; `id` identifies the one that is made if there is none yet. */
    method ForType(t: Type, id: nat) returns (informer: Informer)
      modifies this`informers
      ensures View() == WithInformer(old(View()), t, id)
      ensures t in informers && informer == informers[t]
      ensures if t in old(informers) then informers == old(informers)
              else informers == old(informers)[t := informer] && informer.id == id
                   && (t in customResync ==> informer.resync == customResync[t])
                   && (t !in customResync ==> informer.resync == defaultResync)
    {
      if t in informers {
        return informers[t];
      }
      var resyncPeriod := defaultResync;
      if t in customResync {
        resyncPeriod := customResync[t];
      }
      informer := Informer(id, resyncPeriod);
      informers := informers[t := informer];
    }

    /** Starts, in any order, every informer that has not been started. */
    method StartAll()
      requires Valid()
      modifies this`startedInformers, this`wg, this`running, this`launches
      ensures View() == Started(old(View())) && Valid()
      ensures shuttingDown ==> unchanged(this)
      ensures !shuttingDown ==> startedInformers.Keys == informers.Keys
      ensures !shuttingDown ==> var pending := informers.Keys - old(startedInformers.Keys);
                running == old(running) + pending && launches == old(launches) + multiset(pending)
                && wg == old(wg) + |pending|
    {
      EventKeepsInv(View(), Start);
      if !shuttingDown {
        StartPending();
      }
    }

    method StartPending()
      requires AllTrue(startedInformers)
      modifies this`startedInformers, this`wg, this`running, this`launches
      ensures View() == WithStarted(old(View()), old(informers.Keys - startedInformers.Keys)) && AllTrue(startedInformers)
    {
      ghost var f := View();
      var todo := informers.Keys;
      NothingStarted(f);
      while todo != {}
        invariant todo <= informers.Keys
        invariant View() == WithStarted(f, Done(f, todo)) && AllTrue(startedInformers)
        decreases todo
      {
        var t :| t in todo;
        Passing(f, todo, t);
        if !(t in startedInformers && startedInformers[t]) {
          StartOne(t);
        }
        todo := todo - {t};
      }
    }

    /** The types started so far, while those in todo are still to be looked at. */
    ghost static function Done(f: Factory, todo: set<Type>): set<Type> {
      f.informers.Keys - todo - f.started
    }

    static lemma NothingStarted(f: Factory)
      ensures WithStarted(f, Done(f, f.informers.Keys)) == f
      ensures Done(f, {}) == f.informers.Keys - f.started
    {
      assert Done(f, f.informers.Keys) == {};
    }

    static lemma Passing(f: Factory, todo: set<Type>, t: Type)
      requires t in todo && todo <= f.informers.Keys
      ensures t in WithStarted(f, Done(f, todo)).started <==> t in f.started
      ensures WithStarted(f, Done(f, todo - {t}))
              == if t in f.started then WithStarted(f, Done(f, todo)) else OneMore(WithStarted(f, Done(f, todo)), t)
    {
      if t in f.started {
        assert Done(f, todo - {t}) == Done(f, todo);
      } else {
        assert Done(f, todo - {t}) == Done(f, todo) + {t};
        OneMoreStarted(f, Done(f, todo), t);
      }
    }

    /** One more goroutine runs the informer of t. */
    method StartOne(t: Type)
      requires t !in startedInformers
      modifies this`startedInformers, this`wg, this`running, this`launches
      ensures AllTrue(old(startedInformers)) ==> AllTrue(startedInformers)
      ensures View() == OneMore(old(View()), t)
    {
      KeysOf(startedInformers, t);
      wg := wg + 1;
      running := running + {t};
      launches := launches + multiset{t};
      startedInformers := startedInformers[t := true];
    }

    lemma KeysOf(m: map<Type, bool>, t: Type)
      ensures m[t := true].Keys == m.Keys + {t}
      ensures AllTrue(m) ==> AllTrue(m[t := true])
    {
    }

    /** A goroutine's deferred call, when its informer has stopped. */
    method ExitOne(t: Type)
      requires Valid() && t in running
      modifies this`wg, this`running
      ensures View() == After(old(View()), Exit(t)) && Valid()
    {
      assert running == (running - {t}) + {t};
      wg := wg - 1;
      running := running - {t};
    }

    method BeginShutdown()
      modifies this`shuttingDown
      ensures View() == After(old(View()), Flag)
    {
      shuttingDown := true;
    }

    /** For each type started so far, whether its cache has synced; `synced` lists the informers that have. */
    method WaitForCacheSync(synced: set<nat>) returns (res: map<Type, bool>)
      requires Valid()
      ensures res.Keys == View().started
      ensures forall t :: t in res ==> res[t] == (informers[t].id in synced)
    {
      res := map[];
      var todo := informers.Keys;
      while todo != {}
        invariant todo <= informers.Keys
        invariant res.Keys == View().started * (informers.Keys - todo)
        invariant forall t :: t in res ==> res[t] == (informers[t].id in synced)
        decreases todo
      {
        var t :| t in todo;
        todo := todo - {t};
        if t in startedInformers && startedInformers[t] {
          res := res[t := informers[t].id in synced];
        }
      }
    }
  }
}
