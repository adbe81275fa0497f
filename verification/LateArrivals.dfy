/** What reaches the services too late for the shutdown: workers registered after it copied them,
    duplicates opened after it copied the connections, queues created after it emptied the cache,
    and queues that keep being created while it closes them. */
module LateArrivals {
  import opened Wrappers
  import opened JsMaps
  import opened Networks
  import opened WorkerRegistries
  import opened QueueEventsRegistries
  import opened QueueServices
  import opened ConnectionResolvers
  import opened QueueLifecycles
  import opened Runtimes
  import opened Conservation
  import opened Moments
  import opened Shutdown
  import opened HookCompletion
  import opened LiveLoops

  // ---- Workers ----

  /** Somebody asked `w` to close, gracefully or by force. */
  ghost predicate AskedToClose(log: seq<Effect>, w: Worker) {
    exists e :: e in log && ((e.CloseWorker? && e.worker == w) || e == ForceWorker(w))
  }

  /** Only the shutdown and `unregister` close workers. */
  ghost predicate ClosedBySomeone(s: State) {
    forall k :: 0 <= k < |s.net.log| && s.net.log[k].CloseWorker? ==> s.net.log[k].actor != Bootstrap
  }

  lemma {:induction false} RunClosesForSomeone(s: State, es: seq<Event>)
    requires ClosedBySomeone(s)
    ensures ClosedBySomeone(Run(s, es))
    decreases |es|
  {
    if es != [] {
      StepClosesForSomeone(s, es[0]);
      RunClosesForSomeone(Step(s, es[0]), es[1..]);
    }
  }

  lemma StepClosesForSomeone(s: State, e: Event)
    requires ClosedBySomeone(s)
    ensures ClosedBySomeone(Step(s, e))
  {
    StepEmits(s, e);
    NewCloseHasOwner(s, e);
    var log, log' := s.net.log, Step(s, e).net.log;
    assert forall k :: 0 <= k < |log| ==> log'[k] == log[k];
  }

  lemma NewCloseHasOwner(s: State, e: Event)
    ensures var log, log' := s.net.log, Step(s, e).net.log;
            |log'| > |log| && log'[|log|].CloseWorker? ==> log'[|log|].actor != Bootstrap
  {
  }

  lemma ClosedIff(s: State, w: Worker)
    requires Proper(s) && ClosedBySomeone(s) && Rank(s.life.phase) >= 2
    ensures AskedToClose(s.net.log, w) <==> w in s.life.snapshot || CloseWorker(Caller, w) in s.net.log
  {
    if AskedToClose(s.net.log, w) {
      var e :| e in s.net.log && ((e.CloseWorker? && e.worker == w) || e == ForceWorker(w));
      var k :| 0 <= k < |s.net.log| && s.net.log[k] == e;
      assert Timely(s, s.net.log[k]);
    }
    if w in s.life.snapshot {
      CopiedWorkersClose(s, w);
    }
  }

  lemma BootClosesNobody(cfg: Config)
    ensures ClosedBySomeone(Boot(cfg))
  {
  }

  lemma ReachableClosesForSomeone(cfg: Config, es: seq<Event>)
    ensures ClosedBySomeone(Run(Boot(cfg), es))
  {
    BootClosesNobody(cfg);
    RunClosesForSomeone(Boot(cfg), es);
  }

  /** Some name is mapped to an entry with this worker. */
  ghost predicate Registered(s: State, w: Worker) {
    exists name, entry :: Get(s.workers.entries, name) == Some(entry) && entry.worker == w
  }

  lemma RegisteredIff(s: State, w: Worker)
    requires WorkersOk(s)
    ensures w in WorkersOf(Values(s.workers.entries)) <==> Registered(s, w)
  {
    var m, entries := s.workers.entries, Values(s.workers.entries);
    if w in WorkersOf(entries) {
      var k :| 0 <= k < |entries| && WorkersOf(entries)[k] == w;
      ValuesHold(m, entries[k]);
      var i :| 0 <= i < |m| && m[i].Full? && m[i].value == entries[k];
      FindUnique(m, m[i].key, i);
      assert Get(m, m[i].key) == Some(entries[k]);
    }
    if Registered(s, w) {
      var name, entry :| Get(m, name) == Some(entry) && entry.worker == w;
      assert m[Find(m, name)].value == entry;
      ValuesHold(m, entry);
      var k :| 0 <= k < |entries| && entries[k] == entry;
      assert WorkersOf(entries)[k] == w;
    }
  }

  lemma ClosedIffThen(cfg: Config, es: seq<Event>, w: Worker)
    requires Rank(Run(Boot(cfg), es).life.phase) >= Rank(EventsLoop(0, false))
    ensures var s := Run(Boot(cfg), es);
            AskedToClose(s.net.log, w) <==> Registered(AtDestroy(cfg, es), w) || CloseWorker(Caller, w) in s.net.log
  {
    ReachableIsProper(cfg, es);
    ReachableClosesForSomeone(cfg, es);
    ClosedIff(Run(Boot(cfg), es), w);
    SnapshotIs(cfg, es);
    var _ := MomentIsReached(cfg, es, 0);
    RegisteredIff(AtDestroy(cfg, es), w);
  }

  lemma DestroyedThen(cfg: Config, before: seq<Event>, after: seq<Event>)
    requires Run(Boot(cfg), before).life.phase == Running
    ensures AtDestroy(cfg, before + ([ModuleDestroy] + after)) == Run(Boot(cfg), before)
  {
    LastOfCut(Boot(cfg), before, ModuleDestroy, after, 0);
  }

  /** Once the worker phase is over, a worker has been asked to close exactly when it was registered
      as `onModuleDestroy` was called, after `before`, or an `unregister` closed it. */
  lemma WorkerClosedIff(cfg: Config, before: seq<Event>, after: seq<Event>, w: Worker)
    requires Run(Boot(cfg), before).life.phase == Running
    requires Rank(Run(Boot(cfg), before + ([ModuleDestroy] + after)).life.phase) >= Rank(EventsLoop(0, false))
    ensures var s := Run(Boot(cfg), before + ([ModuleDestroy] + after));
            AskedToClose(s.net.log, w) <==>
              Registered(Run(Boot(cfg), before), w) || CloseWorker(Caller, w) in s.net.log
  {
    ClosedIffThen(cfg, before + ([ModuleDestroy] + after), w);
    DestroyedThen(cfg, before, after);
  }

  lemma RunSnoc(s: State, es: seq<Event>, e: Event)
    ensures Run(s, es + [e]) == Step(Run(s, es), e)
  {
    RunAppend(s, es, [e]);
    RunCons(Run(s, es), e, []);
  }

  // ---- Runs to the end of the hooks ----

  ghost predicate OnlyHooks(es: seq<Event>) {
    forall i :: 0 <= i < |es| ==> LifecycleEvent(es[i])
  }

  /** What the hooks leave alone once the first has begun. */
  lemma HookStepKeeps(s: State, e: Event)
    requires LifecycleEvent(e) && s.life.phase != Running
    ensures var s' := Step(s, e);
            && s'.workers == s.workers && s'.events == s.events && s'.cfg == s.cfg
            && s'.life.snapshot == s.life.snapshot && s'.life.phase != Running
  {
  }

  lemma {:induction false} HooksKeep(s: State, es: seq<Event>)
    requires OnlyHooks(es) && s.life.phase != Running
    ensures var s' := Run(s, es);
            && s'.workers == s.workers && s'.events == s.events && s'.cfg == s.cfg
            && s'.life.snapshot == s.life.snapshot
    decreases |es|
  {
    if es != [] {
      HookStepKeeps(s, es[0]);
      HooksKeep(Step(s, es[0]), es[1..]);
    }
  }

  lemma {:induction false} LogGrows(s: State, es: seq<Event>, e: Effect)
    requires e in s.net.log
    ensures e in Run(s, es).net.log
    decreases |es|
  {
    if es != [] {
      StepEmits(s, es[0]);
      InLonger(s.net.log, Step(s, es[0]).net.log, e);
      LogGrows(Step(s, es[0]), es[1..], e);
    }
  }

  lemma InLonger(log: seq<Effect>, log': seq<Effect>, e: Effect)
    requires log <= log'
    ensures e in log ==> e in log'
  {
    assert forall k :: 0 <= k < |log| ==> log'[k] == log[k];
  }

  lemma OneEvent(s: State, e: Event)
    ensures Run(s, [e]) == Step(s, e)
  {
    RunCons(s, e, []);
  }

  /** Turns of a hook until it stands at a given phase, without calls in between. */
  lemma TwoTurns(s: State)
    ensures Run(s, [Advance, Advance]) == AdvanceStep(AdvanceStep(s))
  {
    RunCons(s, Advance, [Advance]);
    OneEvent(AdvanceStep(s), Advance);
    assert [Advance] + [Advance] == [Advance, Advance];
  }

  /** From the end of the first hook, with nothing cached, to the loop that closes the queues. */
  lemma ToQueues(s: State) returns (es: seq<Event>)
    requires s.life.phase == Destroyed && s.cache == QueueCache([], 0)
    ensures OnlyHooks(es) && Run(s, es).life.phase == QueueLoop(0, false)
    ensures Run(s, es).cache == s.cache && Run(s, es).cfg == s.cfg
  {
    var s1 := Step(s, ApplicationShutdown);
    OneEvent(s, ApplicationShutdown);
    es := [ApplicationShutdown];
    if s.cfg.drainOnShutdown {
      RunSnoc(s, es, Advance);
      es := es + [Advance];
    }
    assert Run(s, es).life.phase == Producer(false) && Run(s, es).cache == s.cache && Run(s, es).cfg == s.cfg;
    RunSnoc(s, es, Advance);
    es := es + [Advance];
    if s.cfg.flows {
      RunSnoc(s, es, Settle(Resolved));
      es := es + [Settle(Resolved)];
    }
  }

  /** From the emptied cache to the end. */
  lemma ToDone(s: State) returns (es: seq<Event>)
    requires s.life.phase == Role(false)
    ensures OnlyHooks(es) && Run(s, es).life.phase == Done
    ensures Run(s, es).cache == s.cache && Run(s, es).life.history.createdAtClear == s.life.history.createdAtClear
  {
    OneEvent(s, Advance);
    es := [Advance];
    if s.cfg.mode == ModeB {
      RunSnoc(s, es, Settle(Resolved));
      es := es + [Settle(Resolved)];
    }
  }

  /** From the end of the first hook to the end of the second. */
  lemma ToTheEnd(s: State) returns (es: seq<Event>)
    requires s.life.phase == Destroyed && s.cache == QueueCache([], 0)
    ensures OnlyHooks(es) && Run(s, es).life.phase == Done
  {
    var first := ToQueues(s);
    var s1 := Run(s, first);
    OneEvent(s1, Advance);
    var last := ToDone(Step(s1, Advance));
    RunCons(s1, Advance, last);
    RunAppend(s, first, [Advance] + last);
    es := first + ([Advance] + last);
  }

  // ---- Workers registered between the two copies ----

  /** The first hook with an empty copy of the workers and nothing observed, up to the copy of the
      connections. */
  lemma EmptyLoops(s: State)
    requires s.life.phase == WorkerLoop(0, false, s.net.clock) && s.life.snapshot == []
    requires s.events == EventsState([], [])
    ensures var t := AdvanceStep(AdvanceStep(s));
            && t.life.phase == DupesStart && t.cfg == s.cfg && t.life.snapshot == []
            && t.workers == s.workers && t.events == s.events && t.cache == s.cache && t.net == s.net
  {
  }

  /** A copy of one connection, which is quit. */
  lemma OneCopied(s: State, c: nat) returns (es: seq<Event>)
    requires s.life.phase == DupesStart && s.events == EventsState([], [])
    requires ConnectionsOf(Values(s.workers.entries)) == [c]
    ensures OnlyHooks(es) && Run(s, es).life.phase == Destroyed && Run(s, es).cache == s.cache
    ensures Quit(Actor.Shutdown, c) in Run(s, es).net.log
  {
    var s1 := AdvanceStep(s);
    var s2 := AdvanceStep(s1);
    assert s1.life.dupes == [c] + [];
    assert s2.net.log == s1.net.log + [Quit(Actor.Shutdown, c)];
    TwoTurns(s);
    var quit := [Advance, Advance];
    RunSnoc(s, quit, Settle(Resolved));
    RunSnoc(s, quit + [Settle(Resolved)], Advance);
    es := quit + [Settle(Resolved)] + [Advance];
  }

  lemma LateWorkerIsRegistered(s: State, name: string)
    requires s.workers == Workers([], map[], 0)
    ensures var s', c := Step(s, Register(name, Attempt(true, true))), s.net.issued;
            && s'.workers.entries == [Full(name, WorkerEntry(Worker(c), c))]
            && ConnectionsOf(Values(s'.workers.entries)) == [c]
            && s'.life == s.life && s'.cfg == s.cfg && s'.events == s.events && s'.cache == s.cache
            && s'.net.clock == s.net.clock && s'.net.log == s.net.log && s'.workers.calls == map[]
  {
    var entry := WorkerEntry(Worker(s.net.issued), s.net.issued);
    ValuesAppend([], Full(name, entry));
    assert [] + [Full(name, entry)] == [Full(name, entry)];
  }

  /** No call is suspended and none has closed a worker. */
  ghost predicate NoCallerCloses(s: State) {
    forall k :: 0 <= k < |s.net.log| ==> !(s.net.log[k].CloseWorker? && s.net.log[k].actor == Caller)
  }

  lemma QuietStep(s: State, e: Event)
    requires NoCallerCloses(s) && !e.Unregister?
    ensures NoCallerCloses(Step(s, e))
  {
    StepEmits(s, e);
    NewCloseIsNotCallers(s, e);
    var log, log' := s.net.log, Step(s, e).net.log;
    assert forall k :: 0 <= k < |log| ==> log'[k] == log[k];
  }

  lemma NewCloseIsNotCallers(s: State, e: Event)
    requires !e.Unregister?
    ensures var log, log' := s.net.log, Step(s, e).net.log;
            |log'| > |log| && log'[|log|].CloseWorker? ==> log'[|log|].actor != Caller
  {
  }

  lemma {:induction false} QuietRun(s: State, es: seq<Event>)
    requires NoCallerCloses(s) && NoUnregister(es)
    ensures NoCallerCloses(Run(s, es))
    decreases |es|
  {
    if es != [] {
      QuietStep(s, es[0]);
      QuietRun(Step(s, es[0]), es[1..]);
    }
  }

  /** After the copy of the workers and a late registration, to the end of both hooks. */
  lemma LateWorkerRuns(s: State, c: nat) returns (es: seq<Event>)
    requires s.life.phase == WorkerLoop(0, false, s.net.clock) && s.life.snapshot == []
    requires s.events == EventsState([], []) && s.cache == QueueCache([], 0)
    requires ConnectionsOf(Values(s.workers.entries)) == [c]
    ensures OnlyHooks(es) && Run(s, es).life.phase == Done && Quit(Actor.Shutdown, c) in Run(s, es).net.log
  {
    EmptyLoops(s);
    TwoTurns(s);
    var s1 := AdvanceStep(AdvanceStep(s));
    var copied := OneCopied(s1, c);
    var s2 := Run(s1, copied);
    var rest := ToTheEnd(s2);
    LogGrows(s2, rest, Quit(Actor.Shutdown, c));
    RunAppend(s1, copied, rest);
    RunAppend(s, [Advance, Advance], copied + rest);
    es := [Advance, Advance] + (copied + rest);
  }

  lemma OnlyHooksHaveNoUnregister(es: seq<Event>)
    requires OnlyHooks(es)
    ensures NoUnregister(es)
  {
  }

  /** For every configuration there is a run to the end of both hooks in which a worker, registered
      after the copy of the workers and before the copy of the connections, has its connection quit
      although nobody ever asked it to close. */
  lemma LateWorkerLosesItsConnection(cfg: Config, name: string) returns (es: seq<Event>, w: Worker)
    ensures var s := Run(Boot(cfg), es);
            && s.life.phase == Done && Get(s.workers.entries, name) == Some(WorkerEntry(w, w.connection))
            && Quit(Actor.Shutdown, w.connection) in s.net.log && !AskedToClose(s.net.log, w)
  {
    var boot, late := Boot(cfg), Register(name, Attempt(true, true));
    var s1 := Step(boot, ModuleDestroy);
    var s2 := Step(s1, late);
    w := Worker(boot.net.issued);
    LateWorkerIsRegistered(s1, name);
    var rest := LateWorkerRuns(s2, w.connection);
    es := [ModuleDestroy] + ([late] + rest);
    RunCons(boot, ModuleDestroy, [late] + rest);
    RunCons(s1, late, rest);
    HooksKeep(s2, rest);
    OnlyHooksHaveNoUnregister(rest);
    QuietRun(boot, es);
    NobodyAsked(cfg, es, w);
  }

  lemma NobodyAsked(cfg: Config, es: seq<Event>, w: Worker)
    requires Run(Boot(cfg), es).life.phase == Done
    requires NoCallerCloses(Run(Boot(cfg), es)) && w !in Run(Boot(cfg), es).life.snapshot
    ensures !AskedToClose(Run(Boot(cfg), es).net.log, w)
  {
    ReachableIsProper(cfg, es);
    ReachableClosesForSomeone(cfg, es);
    ClosedIff(Run(Boot(cfg), es), w);
  }

  /** The copy of the connections is what the loop over them goes through. */
  lemma {:induction false} CopyStays(s: State, es: seq<Event>)
    requires Rank(s.life.phase) >= 4
    ensures Rank(Run(s, es).life.phase) >= 4 && Run(s, es).life.dupes == s.life.dupes
    decreases |es|
  {
    if es != [] {
      CopyStaysOne(s, es[0]);
      CopyStays(Step(s, es[0]), es[1..]);
    }
  }

  lemma CopyStaysOne(s: State, e: Event)
    requires Rank(s.life.phase) >= 4
    ensures Rank(Step(s, e).life.phase) >= 4 && Step(s, e).life.dupes == s.life.dupes
  {
  }

  lemma QuitsItsCopy(s: State, c: nat)
    requires Proper(s) && Rank(s.life.phase) >= 5 && c != ROLE
    ensures Quit(Actor.Shutdown, c) in s.net.log <==> c in s.life.dupes
  {
    LoggedIsTimely(s, Quit(Actor.Shutdown, c));
    if c in s.life.dupes {
      CopiedConnectionsQuit(s, c);
    }
  }

  /** Once the first hook has returned, it has quit exactly the connections a registry tracked when
      it copied them, after `before`. */
  lemma ShutdownQuitsIff(cfg: Config, before: seq<Event>, after: seq<Event>, c: nat)
    requires Run(Boot(cfg), before).life.phase == DupesStart && c != ROLE
    requires Rank(Run(Boot(cfg), before + ([Advance] + after)).life.phase) >= Rank(Destroyed)
    ensures Quit(Actor.Shutdown, c) in Run(Boot(cfg), before + ([Advance] + after)).net.log
       <==> Tracked(Run(Boot(cfg), before), c)
  {
    var s := Run(Boot(cfg), before);
    ReachableIsProper(cfg, before + ([Advance] + after));
    QuitsItsCopy(Run(Boot(cfg), before + ([Advance] + after)), c);
    RunAppend(Boot(cfg), before, [Advance] + after);
    RunCons(s, Advance, after);
    CopyStays(Step(s, Advance), after);
    TrackedConnections(s, c);
  }

  /** The workers whose connection is quit although nobody asks them to close: those a registry
      tracks when the connections are copied, that were not registered when `onModuleDestroy` was
      called, after `before`, and which no `unregister` closes. */
  lemma CutOffIff(cfg: Config, before: seq<Event>, between: seq<Event>, after: seq<Event>, w: Worker)
    requires Run(Boot(cfg), before).life.phase == Running && w.connection != ROLE
    requires Run(Boot(cfg), before + ([ModuleDestroy] + between)).life.phase == DupesStart
    requires Rank(Run(Boot(cfg), before + ([ModuleDestroy] + between) + ([Advance] + after)).life.phase)
             >= Rank(Destroyed)
    ensures var s := Run(Boot(cfg), before + ([ModuleDestroy] + between) + ([Advance] + after));
            Quit(Actor.Shutdown, w.connection) in s.net.log && !AskedToClose(s.net.log, w) <==>
              && Tracked(Run(Boot(cfg), before + ([ModuleDestroy] + between)), w.connection)
              && !Registered(Run(Boot(cfg), before), w) && CloseWorker(Caller, w) !in s.net.log
  {
    var rest := between + ([Advance] + after);
    ShutdownQuitsIff(cfg, before + ([ModuleDestroy] + between), after, w.connection);
    assert before + ([ModuleDestroy] + between) + ([Advance] + after) == before + ([ModuleDestroy] + rest);
    WorkerClosedIff(cfg, before, rest, w);
  }

  // ---- Duplicates ----

  /** Some caller, as opposed to the shutdown, quit or disconnected `c`: an `unregister`, or a
      registration whose constructor threw. */
  ghost predicate ByCaller(log: seq<Effect>, c: nat) {
    Quit(Caller, c) in log || Disconnect(Caller, c) in log
  }

  ghost predicate ByShutdown(log: seq<Effect>, c: nat) {
    Quit(Actor.Shutdown, c) in log || Disconnect(Actor.Shutdown, c) in log
  }

  ghost predicate Touched(log: seq<Effect>, c: nat) {
    ByCaller(log, c) || ByShutdown(log, c) || Disconnect(Bootstrap, c) in log
  }

  /** Whatever is released was quit or disconnected by someone, and so is what is being quit. */
  ghost predicate Caused(s: State) {
    && (forall c :: c in s.net.released ==> Touched(s.net.log, c))
    && (forall id :: id in s.workers.calls && s.workers.calls[id].Quitting? ==>
                       Quit(Caller, s.workers.calls[id].entry.connection) in s.net.log)
    && (s.life.phase.DupeLoop? && s.life.phase.busy && s.life.phase.i < |s.life.dupes| ==>
          Quit(Actor.Shutdown, s.life.dupes[s.life.phase.i]) in s.net.log)
    && (s.life.phase == Role(true) ==> Quit(Actor.Shutdown, ROLE) in s.net.log)
  }

  lemma TouchedStays(log: seq<Effect>, log': seq<Effect>, c: nat)
    requires log <= log' && Touched(log, c)
    ensures Touched(log', c)
  {
    InLonger(log, log', Quit(Caller, c));
    InLonger(log, log', Disconnect(Caller, c));
    InLonger(log, log', Quit(Actor.Shutdown, c));
    InLonger(log, log', Disconnect(Actor.Shutdown, c));
    InLonger(log, log', Disconnect(Bootstrap, c));
  }

  /** A step that releases a connection has just disconnected it, or had quit it. */
  lemma NewlyReleased(s: State, e: Event, c: nat)
    requires Sound(s) && Caused(s) && c in Step(s, e).net.released && c !in s.net.released
    ensures || Touched(s.net.log, c)
            || (|Step(s, e).net.log| > |s.net.log| && Touched([Step(s, e).net.log[|s.net.log|]], c))
  {
  }

  lemma StepReleasesTouched(s: State, e: Event, c: nat)
    requires Sound(s) && Caused(s) && c in Step(s, e).net.released
    ensures Touched(Step(s, e).net.log, c)
  {
    var log, log' := s.net.log, Step(s, e).net.log;
    StepEmits(s, e);
    if c !in s.net.released {
      NewlyReleased(s, e, c);
    }
    if Touched(log, c) {
      TouchedStays(log, log', c);
    } else {
      var last := log'[|log|];
      assert forall x :: x in [last] ==> x in log';
    }
  }

  lemma StepQuitsFirst(s: State, e: Event)
    requires Caused(s)
    ensures var s' := Step(s, e);
            && (forall id :: id in s'.workers.calls && s'.workers.calls[id].Quitting? ==>
                               Quit(Caller, s'.workers.calls[id].entry.connection) in s'.net.log)
  {
    var s' := Step(s, e);
    StepEmits(s, e);
    forall id | id in s'.workers.calls && s'.workers.calls[id].Quitting?
      ensures Quit(Caller, s'.workers.calls[id].entry.connection) in s'.net.log
    {
      var quit := Quit(Caller, s'.workers.calls[id].entry.connection);
      InLonger(s.net.log, s'.net.log, quit);
      if !(id in s.workers.calls && s.workers.calls[id].Quitting?) {
        assert s'.net.log[|s.net.log|] == quit;
      }
    }
  }

  lemma StepQuitsBeforeWaiting(s: State, e: Event)
    requires Caused(s)
    ensures var s' := Step(s, e);
            && (s'.life.phase.DupeLoop? && s'.life.phase.busy && s'.life.phase.i < |s'.life.dupes| ==>
                  Quit(Actor.Shutdown, s'.life.dupes[s'.life.phase.i]) in s'.net.log)
            && (s'.life.phase == Role(true) ==> Quit(Actor.Shutdown, ROLE) in s'.net.log)
  {
    var s' := Step(s, e);
    StepEmits(s, e);
    if s.life.phase.DupeLoop? && s.life.phase.i < |s.life.dupes| {
      InLonger(s.net.log, s'.net.log, Quit(Actor.Shutdown, s.life.dupes[s.life.phase.i]));
    }
    InLonger(s.net.log, s'.net.log, Quit(Actor.Shutdown, ROLE));
  }

  lemma {:induction false} RunIsCaused(s: State, es: seq<Event>)
    requires Sound(s) && Caused(s)
    ensures Caused(Run(s, es))
    decreases |es|
  {
    if es != [] {
      var s' := Step(s, es[0]);
      forall c | c in s'.net.released ensures Touched(s'.net.log, c) {
        StepReleasesTouched(s, es[0], c);
      }
      StepQuitsFirst(s, es[0]);
      StepQuitsBeforeWaiting(s, es[0]);
      StepKeepsSound(s, es[0]);
      RunIsCaused(s', es[1..]);
    }
  }

  /** The shutdown touches no duplicate opened after it copied the connections, and bootstrap none
      but the probe. */
  lemma LateIsUntouched(s: State, c: nat)
    requires Staged(s) && c != ROLE && c >= s.life.history.issuedAtDupes
    ensures !ByShutdown(s.net.log, c)
  {
    LoggedIsTimely(s, Quit(Actor.Shutdown, c));
    LoggedIsTimely(s, Disconnect(Actor.Shutdown, c));
  }

  /** Bootstrap disconnects only the probe, which is older than any copy. */
  ghost predicate ProbeIsOld(s: State) {
    && s.net.issued >= (if s.cfg.mode == ModeA then 2 else 1)
    && (forall k :: 0 <= k < |s.net.log| && s.net.log[k].Disconnect? && s.net.log[k].actor == Bootstrap ==>
                      s.cfg.mode == ModeA && s.net.log[k].connection == 1)
    && (Rank(s.life.phase) >= 4 ==> s.life.history.issuedAtDupes >= (if s.cfg.mode == ModeA then 2 else 1))
  }

  lemma NewDisconnectHasOwner(s: State, e: Event)
    ensures var log, log' := s.net.log, Step(s, e).net.log;
            |log'| > |log| && log'[|log|].Disconnect? ==> log'[|log|].actor != Bootstrap
  {
  }

  lemma StepKeepsProbeOld(s: State, e: Event)
    requires Sound(s) && ProbeIsOld(s)
    ensures ProbeIsOld(Step(s, e))
  {
    StepEmits(s, e);
    StepKeepsNet(s, e);
    NewDisconnectHasOwner(s, e);
    CopyTimeIsKept(s, e);
    var log, log' := s.net.log, Step(s, e).net.log;
    assert forall k :: 0 <= k < |log| ==> log'[k] == log[k];
  }

  lemma CopyTimeIsKept(s: State, e: Event)
    ensures var h := Step(s, e).life.history;
            Rank(Step(s, e).life.phase) >= 4 ==>
              if Rank(s.life.phase) >= 4 then h.issuedAtDupes == s.life.history.issuedAtDupes
              else h.issuedAtDupes == s.net.issued
  {
  }

  lemma {:induction false} RunKeepsProbeOld(s: State, es: seq<Event>)
    requires Sound(s) && ProbeIsOld(s)
    ensures ProbeIsOld(Run(s, es))
    decreases |es|
  {
    if es != [] {
      StepKeepsProbeOld(s, es[0]);
      StepKeepsSound(s, es[0]);
      RunKeepsProbeOld(Step(s, es[0]), es[1..]);
    }
  }

  lemma BootIsCaused(cfg: Config)
    ensures Sound(Boot(cfg)) && Caused(Boot(cfg)) && ProbeIsOld(Boot(cfg))
  {
    BootSound(cfg);
    assert cfg.mode == ModeA ==> Boot(cfg).net.log == [Disconnect(Bootstrap, 1)];
  }

  lemma ProbeIsLogged(s: State, c: nat)
    requires ProbeIsOld(s)
    ensures Disconnect(Bootstrap, c) in s.net.log ==> s.cfg.mode == ModeA && c == 1
  {
    if Disconnect(Bootstrap, c) in s.net.log {
      var k :| 0 <= k < |s.net.log| && s.net.log[k] == Disconnect(Bootstrap, c);
    }
  }

  lemma LateIsOpen(s: State, c: nat)
    requires Staged(s) && Caused(s) && ProbeIsOld(s) && OwnDuplicate(s, c) && Rank(s.life.phase) >= 4
    requires !ByCaller(s.net.log, c) && c in s.net.released
    ensures c < s.life.history.issuedAtDupes
  {
    assert Touched(s.net.log, c);
    ProbeIsLogged(s, c);
    if c >= s.life.history.issuedAtDupes {
      LateIsUntouched(s, c);
    }
  }

  lemma ReachableIsCaused(cfg: Config, es: seq<Event>)
    ensures var s := Run(Boot(cfg), es); Staged(s) && Caused(s) && ProbeIsOld(s)
  {
    BootIsCaused(cfg);
    RunIsCaused(Boot(cfg), es);
    RunKeepsProbeOld(Boot(cfg), es);
    BootIsProper(cfg);
    RunIsProper(Boot(cfg), es);
  }

  /** Once `onModuleDestroy` has returned, a duplicate no caller quit or disconnected is released
      exactly when it was opened before the shutdown copied the tracked connections. One opened
      later stays open until a caller unregisters its worker. */
  lemma DuplicateReleasedIff(cfg: Config, es: seq<Event>, c: nat)
    requires Disciplined(Boot(cfg), es) && Rank(Run(Boot(cfg), es).life.phase) >= Rank(Destroyed)
    requires OwnDuplicate(Run(Boot(cfg), es), c) && !ByCaller(Run(Boot(cfg), es).net.log, c)
    ensures c in Run(Boot(cfg), es).net.released <==> c < AtCopy(cfg, es).net.issued
  {
    var s := Run(Boot(cfg), es);
    ReachableIsCaused(cfg, es);
    CopyIs(cfg, es);
    if c in s.net.released {
      LateIsOpen(s, c);
    }
    if c < AtCopy(cfg, es).net.issued {
      ModuleDestroyReleasesDuplicates(cfg, es, c);
    }
  }

  // ---- Queues ----

  /** From boot the hooks can be taken to the loop that closes the queues. */
  lemma ToQueueLoop(cfg: Config) returns (es: seq<Event>)
    ensures var s := Run(Boot(cfg), es);
            s.life.phase == QueueLoop(0, false) && s.cache == QueueCache([], 0) && s.cfg == cfg
  {
    var boot := Boot(cfg);
    var s1 := Step(boot, ModuleDestroy);
    EmptyLoops(s1);
    TwoTurns(s1);
    var s2 := AdvanceStep(AdvanceStep(s1));
    EmptyCopy(s2);
    TwoTurns(s2);
    var s3 := AdvanceStep(AdvanceStep(s2));
    var rest := ToQueues(s3);
    RunAppend(s2, [Advance, Advance], rest);
    RunAppend(s1, [Advance, Advance], [Advance, Advance] + rest);
    RunCons(boot, ModuleDestroy, [Advance, Advance] + ([Advance, Advance] + rest));
    es := [ModuleDestroy] + ([Advance, Advance] + ([Advance, Advance] + rest));
  }

  lemma EmptyCopy(s: State)
    requires s.life.phase == DupesStart && s.workers.entries == [] && s.events == EventsState([], [])
    ensures var t := AdvanceStep(AdvanceStep(s));
            t.life.phase == Destroyed && t.cfg == s.cfg && t.cache == s.cache
  {
  }

  lemma LateUse(s: State, name: string)
    requires s.life.phase == QueueLoop(0, false) && s.cache == QueueCache([], 0)
    ensures var t := Run(s, [Advance] + [Use(name, true)]);
            t.life.phase == Role(false) && t.cache == QueueCache([Full(name, Queue(0))], 1)
  {
    RunCons(s, Advance, [Use(name, true)]);
    OneEvent(Step(s, Advance), Use(name, true));
  }

  /** A queue first used after the cache was emptied and before the hooks return is never closed. */
  lemma LateQueueIsNeverClosed(cfg: Config, name: string) returns (es: seq<Event>, q: Queue)
    ensures var s := Run(Boot(cfg), es);
            && s.life.phase == Done && !Holds(AtCleared(cfg, es).cache.queues, q)
            && Get(s.cache.queues, name) == Some(q) && CloseQueue(q) !in s.net.log
  {
    var first := ToQueueLoop(cfg);
    var s := Run(Boot(cfg), first);
    LateUse(s, name);
    var used := [Advance] + [Use(name, true)];
    var rest := ToDone(Run(s, used));
    es, q := first + ([Advance] + ([Use(name, true)] + rest)), Queue(0);
    assert [Advance] + ([Use(name, true)] + rest) == used + rest;
    RunAppend(Boot(cfg), first, used + rest);
    RunAppend(s, used, rest);
    LastOfCut(Boot(cfg), first, Advance, [Use(name, true)] + rest, 8);
    QueueClosedIff(cfg, es, q);
  }

  /** A new name for every round. */
  function NewName(n: nat): string {
    seq(n, i => 'q')
  }

  /** Before each turn a queue with a new name is used. */
  function Endless(ends: nat -> Outcome): Schedule {
    Schedule((n: nat) => [Use(NewName(n), true)], ends)
  }

  /** The loop that closes the queues has seen `n` of them created. */
  ghost predicate Chasing(s: State, n: nat) {
    && Sound(s) && s.life.phase.QueueLoop? && |s.cache.queues| == n
    && forall i :: 0 <= i < |s.cache.queues| && s.cache.queues[i].Full? ==> |s.cache.queues[i].key| < n
  }

  lemma ChaseGoesOn(s: State, ends: nat -> Outcome, n: nat)
    requires Chasing(s, n)
    ensures Chasing(Round(s, Endless(ends), n), n + 1)
  {
    var use := Use(NewName(n), true);
    var t := Step(s, use);
    assert !Has(s.cache.queues, NewName(n));
    StepKeepsSound(s, use);
    RunCons(s, use, []);
    RunAppend(s, [use], TurnOf(t, ends(n)));
    ChaserTurns(t, ends(n));
  }

  lemma ChaserTurns(t: State, o: Outcome)
    requires Sound(t) && t.life.phase.QueueLoop? && t.life.phase.i < |t.cache.queues|
    ensures var t' := Run(t, TurnOf(t, o)); Sound(t') && t'.life.phase.QueueLoop? && t'.cache == t.cache
  {
    var turn := TurnOf(t, o)[0];
    assert TurnOf(t, o) == [turn];
    RunCons(t, turn, []);
    StepKeepsSound(t, turn);
  }

  /** An application that keeps creating queues keeps `closeAll` from returning: whatever the
      configuration and however the closes end, there is a schedule without end. */
  lemma EndlessQueues(cfg: Config, ends: nat -> Outcome) returns (before: seq<Event>)
    ensures Polite(Endless(ends)) && !Completes(Run(Boot(cfg), before), Endless(ends))
  {
    before := ToQueueLoop(cfg);
    var s := Run(Boot(cfg), before);
    BootSound(cfg);
    RunKeepsSound(Boot(cfg), before);
    var inv := (t: State, n: nat) => Chasing(t, n);
    forall t, n: nat | inv(t, n) ensures inv(Rounds(Endless(ends))(t, n), n + 1) {
      ChaseGoesOn(t, ends, n);
    }
    forall n: nat ensures !AtRest(Driven(s, Endless(ends), n).life.phase) {
      IteratedKeeps(Rounds(Endless(ends)), inv, s, n);
    }
  }

  /** The same, but only before every fourth turn. */
  function EveryFourth(ends: nat -> Outcome): Schedule {
    Schedule((n: nat) => if n % 4 == 0 then [Use(NewName(n), true)] else [], ends)
  }

  lemma EveryFourthUses(ends: nat -> Outcome)
    ensures UsedBefore(EveryFourth(ends), 5) == {NewName(0), NewName(4)}
  {
    var sch := EveryFourth(ends);
    assert Used(sch.calls(0)) == {NewName(0)} && Used(sch.calls(4)) == {NewName(4)} by {
      NamesOfOne(Use(NewName(0), true));
      NamesOfOne(Use(NewName(4), true));
    }
    assert Used(sch.calls(1)) == {} && Used(sch.calls(2)) == {} && Used(sch.calls(3)) == {};
    assert UsedBefore(sch, 1) == {NewName(0)};
    assert UsedBefore(sch, 2) == {NewName(0)};
    assert UsedBefore(sch, 3) == {NewName(0)};
    assert UsedBefore(sch, 4) == {NewName(0)};
  }

  /** An application that creates queues for ever, but slower than they are closed, does not keep
      `closeAll`: the loop catches up with it. */
  lemma EveryFourthIsCaught(cfg: Config, ends: nat -> Outcome) returns (before: seq<Event>)
    ensures Polite(EveryFourth(ends)) && Run(Boot(cfg), before).life.phase == QueueLoop(0, false)
    ensures Completes(Run(Boot(cfg), before), EveryFourth(ends))
  {
    before := ToQueueLoop(cfg);
    HookCompletesIff(cfg, before, EveryFourth(ends));
    EveryFourthReturns(Run(Boot(cfg), before), ends);
  }

  lemma EveryFourthReturns(s: State, ends: nat -> Outcome)
    requires s.life.phase == QueueLoop(0, false) && s.cache.queues == []
    ensures Returns(s, EveryFourth(ends))
  {
    var sizes := QueueSizes(s, EveryFourth(ends));
    EveryFourthUses(ends);
    assert KeySet(s.cache.queues) == {};
    assert {} + {NewName(0), NewName(4)} == {NewName(0), NewName(4)};
    assert sizes(5) <= 2;
    assert CaughtAt(sizes, 0, 0, 4);
  }
}
