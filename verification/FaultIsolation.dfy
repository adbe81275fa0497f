/** No failure aborts the shutdown or changes what it does next. */
module FaultIsolation {
  import opened JsMaps
  import opened Networks
  import opened WorkerRegistries
  import opened ConnectionResolvers
  import opened QueueLifecycles
  import opened Runtimes

  // ---- A run beside the run in which every teardown call succeeds ----

  /** An effect the shutdown inserts because a call of its own failed. */
  predicate Inserted(e: Effect) {
    e.ForceWorker? || (e.Disconnect? && e.actor == Shutdown)
  }

  function Uninserted(log: seq<Effect>): seq<Effect> {
    if log == [] then []
    else
      var last := log[|log| - 1];
      Uninserted(log[..|log| - 1]) + if Inserted(last) then [] else [last]
  }

  lemma UninsertedAppend(log: seq<Effect>, e: Effect)
    ensures Uninserted(log + [e]) == Uninserted(log) + if Inserted(e) then [] else [e]
  {
    assert (log + [e])[..|log|] == log;
  }

  /** The same events with every teardown call resolving where the given run ends it, whether by
      a resolution, a rejection or the drain timer. */
  function Healed(s: State, es: seq<Event>): seq<Event>
    decreases |es|
  {
    if es == [] then []
    else HealedEvent(s, es[0]) + Healed(Step(s, es[0]), es[1..])
  }

  function HealedEvent(s: State, e: Event): seq<Event> {
    if !e.Settle? then [e] else if Step(s, e) == s then [] else [Settle(Resolved)]
  }

  function AllResolved(n: nat): seq<Outcome> {
    if n == 0 then [] else AllResolved(n - 1) + [Resolved]
  }

  lemma {:induction false} AllResolvedHolds(n: nat)
    ensures forall o :: o in AllResolved(n) ==> o == Resolved
  {
    if n > 0 {
      AllResolvedHolds(n - 1);
    }
  }

  /** A state without the traces failures leave: inserted effects, counts and outcomes. */
  function Untraced(s: State): State {
    var h := s.life.history;
    s.(net := s.net.(log := Uninserted(s.net.log)),
       life := s.life.(forced := 0, forcedWorkers := 0,
                       history := h.(outcomes := AllResolved(|h.outcomes|), roleRejected := false)))
  }

  lemma SettledNet(s: State, o: Outcome)
    requires s.life.phase.WorkerLoop?
    ensures Uninserted(SettleWorkerStep(s, o).net.log) == Uninserted(s.net.log)
    ensures SettleWorkerStep(s, o).net.(log := s.net.log) == s.net
  {
    var i := s.life.phase.i;
    if i < |s.life.snapshot| {
      UninsertedAppend(s.net.log, ForceWorker(s.life.snapshot[i]));
    }
  }

  lemma SettledHistory(s: State, o: Outcome)
    requires s.life.phase.WorkerLoop? && SettleWorkerStep(s, o) != s
    ensures SettleWorkerStep(s, o).life.history == s.life.history.(outcomes := s.life.history.outcomes + [o])
    ensures AllResolved(|s.life.history.outcomes| + 1) == AllResolved(|s.life.history.outcomes|) + [Resolved]
  {
  }

  lemma WorkerNetHeals(s: State, o: Outcome)
    requires s.life.phase.WorkerLoop? && SettleWorkerStep(s, o) != s
    ensures Untraced(SettleWorkerStep(s, o)).net == SettleWorkerStep(Untraced(s), Resolved).net
  {
    SettledNet(s, o);
  }

  lemma WorkerLifeHeals(s: State, o: Outcome)
    requires s.life.phase.WorkerLoop? && SettleWorkerStep(s, o) != s
    ensures Untraced(SettleWorkerStep(s, o)).life == SettleWorkerStep(Untraced(s), Resolved).life
  {
    SettledHistory(s, o);
  }

  lemma SettleWorkerHeals(s: State, o: Outcome)
    requires s.life.phase.WorkerLoop? && SettleWorkerStep(s, o) != s
    ensures Untraced(SettleWorkerStep(s, o)) == SettleWorkerStep(Untraced(s), Resolved)
  {
    WorkerNetHeals(s, o);
    WorkerLifeHeals(s, o);
  }

  lemma QuitHeals(n: Net, connection: nat, ok: bool)
    ensures Uninserted(QuitSettled(n, Shutdown, connection, ok).log) == Uninserted(n.log)
    ensures QuitSettled(n, Shutdown, connection, ok).(log := n.log) == QuitSettled(n, Shutdown, connection, true)
  {
    UninsertedAppend(n.log, Disconnect(Shutdown, connection));
  }

  lemma SettleHeals(s: State, o: Outcome)
    requires SettleStep(s, o) != s
    ensures Untraced(SettleStep(s, o)) == SettleStep(Untraced(s), Resolved)
  {
    match s.life.phase
    case WorkerLoop(_, _, _) => SettleWorkerHeals(s, o);
    case DupeLoop(i, _) => QuitHeals(s.net, s.life.dupes[i], o == Resolved);
    case Role(_) => QuitHeals(s.net, ROLE, o == Resolved);
    case _ =>
  }

  lemma CallingUntraces(s: State, e: Effect, p: Phase)
    requires !Inserted(e)
    ensures Untraced(Calling(s, e, p)) == Calling(Untraced(s), e, p)
  {
    UninsertedAppend(s.net.log, e);
  }

  /** The hook goes on alike beside and without the failures so far. */
  predicate Untraces(s: State) {
    Untraced(AdvanceStep(s)) == AdvanceStep(Untraced(s))
  }

  lemma WorkersUntrace(s: State)
    requires s.life.phase.WorkerLoop?
    ensures Untraces(s)
  {
    var i := s.life.phase.i;
    if i < |s.life.snapshot| {
      CallingUntraces(s, CloseWorker(Shutdown, s.life.snapshot[i]), WorkerLoop(i, true, s.net.clock));
    }
  }

  lemma EventsUntrace(s: State)
    requires s.life.phase.EventsLoop?
    ensures Untraces(s)
  {
    var i := s.life.phase.i;
    if i < |s.events.events| && s.events.events[i].Full? {
      CallingUntraces(s, CloseEvents(s.events.events[i].value), EventsLoop(i, true));
    }
  }

  lemma DupesUntrace(s: State)
    requires s.life.phase.DupeLoop?
    ensures Untraces(s)
  {
    var i := s.life.phase.i;
    if i < |s.life.dupes| {
      CallingUntraces(s, Quit(Shutdown, s.life.dupes[i]), DupeLoop(i, true));
    }
  }

  lemma OtherPhasesUntrace(s: State)
    requires s.life.phase in {Running, DupesStart, Destroyed, Done}
    ensures Untraces(s)
  {
  }

  lemma FirstHookUntraces(s: State)
    requires Rank(s.life.phase) <= Rank(Destroyed)
    ensures Untraces(s)
  {
    match s.life.phase
    case WorkerLoop(_, _, _) => WorkersUntrace(s);
    case EventsLoop(_, _) => EventsUntrace(s);
    case DupeLoop(_, _) => DupesUntrace(s);
    case _ => OtherPhasesUntrace(s);
  }

  lemma DrainUntraces(s: State)
    requires s.life.phase.DrainLoop?
    ensures Untraces(s)
  {
    var i := s.life.phase.i;
    if i < |s.cache.queues| && s.cache.queues[i].Full? {
      CallingUntraces(s, DrainQueue(s.cache.queues[i].value), DrainLoop(i, true));
    }
  }

  lemma QueuesUntrace(s: State)
    requires s.life.phase.QueueLoop?
    ensures Untraces(s)
  {
    var i := s.life.phase.i;
    if i < |s.cache.queues| && s.cache.queues[i].Full? {
      CallingUntraces(s, CloseQueue(s.cache.queues[i].value), QueueLoop(i, true));
    }
  }

  lemma ProducerUntraces(s: State)
    requires s.life.phase.Producer?
    ensures Untraces(s)
  {
    CallingUntraces(s, CloseProducer, Producer(true));
  }

  lemma RoleUntraces(s: State)
    requires s.life.phase.Role?
    ensures Untraces(s)
  {
    CallingUntraces(s, Quit(Shutdown, ROLE), Role(true));
  }

  lemma SecondHookUntraces(s: State)
    requires Rank(s.life.phase) > Rank(Destroyed)
    ensures Untraces(s)
  {
    match s.life.phase
    case DrainLoop(_, _) => DrainUntraces(s);
    case Producer(_) => ProducerUntraces(s);
    case QueueLoop(_, _) => QueuesUntrace(s);
    case Role(_) => RoleUntraces(s);
    case _ => OtherPhasesUntrace(s);
  }

  lemma AdvanceUntraces(s: State)
    ensures Untraces(s)
  {
    if Rank(s.life.phase) <= Rank(Destroyed) {
      FirstHookUntraces(s);
    } else {
      SecondHookUntraces(s);
    }
  }

  lemma RegisterUntraces(s: State, name: string, a: Attempt)
    ensures Untraced(Step(s, Register(name, a))) == Step(Untraced(s), Register(name, a))
  {
    UninsertedAppend(s.net.log, Disconnect(Caller, s.net.issued));
  }

  lemma ObserveUntraces(s: State, name: string, constructs: bool)
    ensures Untraced(Step(s, Observe(name, constructs))) == Step(Untraced(s), Observe(name, constructs))
  {
    UninsertedAppend(s.net.log, Disconnect(Caller, s.net.issued));
  }

  lemma UnregisterUntraces(s: State, name: string)
    ensures Untraced(Step(s, Unregister(name))) == Step(Untraced(s), Unregister(name))
  {
    var entry := Get(s.workers.entries, name);
    if entry.Some? {
      UninsertedAppend(s.net.log, CloseWorker(Caller, entry.value.worker));
    }
  }

  lemma ResumeUntraces(s: State, id: nat, ok: bool)
    ensures Untraced(Step(s, Resume(id, ok))) == Step(Untraced(s), Resume(id, ok))
  {
    if id in s.workers.calls {
      var c := s.workers.calls[id].entry.connection;
      UninsertedAppend(s.net.log, Quit(Caller, c));
      UninsertedAppend(s.net.log, Disconnect(Caller, c));
    }
  }

  lemma OtherUntraces(s: State, e: Event)
    requires !e.Settle? && !e.Advance?
    ensures Untraced(Step(s, e)) == Step(Untraced(s), e)
  {
    match e
    case Register(name, a) => RegisterUntraces(s, name, a);
    case RegisterSandboxed(name, fileValid, a) => RegisterUntraces(s, name, a);
    case Observe(name, constructs) => ObserveUntraces(s, name, constructs);
    case Unregister(name) => UnregisterUntraces(s, name);
    case Resume(id, ok) => ResumeUntraces(s, id, ok);
    case Use(_, _) =>
    case Tick(_) =>
    case ModuleDestroy =>
    case ApplicationShutdown =>
    case Advance =>
    case Settle(_) =>
  }

  lemma {:induction false} RunHeals(s: State, es: seq<Event>)
    ensures Untraced(Run(s, es)) == Run(Untraced(s), Healed(s, es))
    decreases |es|
  {
    if es != [] {
      var e, s' := es[0], Step(s, es[0]);
      RunHeals(s', es[1..]);
      if e.Settle? && s' == s {
        assert Healed(s, es) == Healed(s', es[1..]);
      } else {
        var healed := HealedEvent(s, e)[0];
        match e
        case Settle(o) => SettleHeals(s, o);
        case Advance => AdvanceUntraces(s);
        case _ => OtherUntraces(s, e);
        assert Healed(s, es) == [healed] + Healed(s', es[1..]);
        RunCons(Untraced(s), healed, Healed(s', es[1..]));
      }
    }
  }

  /** For every run, with any mix of rejections and drain timeouts, there is the run in which the
      same calls all succeed, and the two differ only in the force-closes and disconnects the
      shutdown inserted and in its failure counts. */
  lemma FaultsAreIsolated(cfg: Config, es: seq<Event>)
    ensures var faulty, healthy := Run(Boot(cfg), es), Run(Boot(cfg), Healed(Boot(cfg), es));
            && Uninserted(faulty.net.log) == healthy.net.log
            && faulty.life.phase == healthy.life.phase && faulty.net.released == healthy.net.released
            && healthy.life.forced == 0 && (forall o :: o in healthy.life.history.outcomes ==> o == Resolved)
            && faulty.workers == healthy.workers && faulty.events == healthy.events && faulty.cache == healthy.cache
  {
    if cfg.mode == ModeA {
      UninsertedAppend([], Disconnect(Bootstrap, 1));
    }
    assert Untraced(Boot(cfg)) == Boot(cfg);
    RunHeals(Boot(cfg), es);
    AllResolvedHolds(|Run(Boot(cfg), es).life.history.outcomes|);
  }
}
