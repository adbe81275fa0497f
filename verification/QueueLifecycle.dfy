/** The two-phase ordered shutdown. Each `await` of the two hooks is a point where other calls may
    run, so the hooks are cut there: a phase says which loop the hook is in, at which index, and
    whether it waits for the call it made (`busy`) or stands at the loop head. */
module QueueLifecycles {
  import opened Wrappers
  import opened JsMaps
  import opened Networks
  import opened WorkerRegistries
  import opened QueueEventsRegistries
  import opened QueueServices
  import opened ConnectionResolvers

  datatype Config = Config(mode: Mode, drainTimeout: nat, drainOnShutdown: bool, flows: bool)

  /** How an awaited call ends. `TimedOut` is the drain timer winning the race for a worker. */
  datatype Outcome = Resolved | Rejected | TimedOut

  datatype Phase =
    | Running
    | WorkerLoop(i: nat, busy: bool, since: nat)
    | EventsLoop(i: nat, busy: bool)
    | DupesStart
    | DupeLoop(i: nat, busy: bool)
    | Destroyed
    | DrainLoop(i: nat, busy: bool)
    | Producer(busy: bool)
    | QueueLoop(i: nat, busy: bool)
    | Role(busy: bool)
    | Done

  /** What a completed loop went over, and how each graceful worker close ended. */
  datatype History = History(
    outcomes: seq<Outcome>, drainedAt: nat, events: seq<QueueEvents>, issuedAtDupes: nat,
    drained: seq<Queue>, queues: seq<Queue>, createdAtClear: nat, roleRejected: bool)

  /** The fields and suspended locals of the lifecycle service: `snapshot` is the copy
      `workers.getAll()` returned, `dupes` the array `closeDuplicatedConnections` built. */
  datatype Life = Life(phase: Phase, startedAt: Option<nat>, forcedWorkers: nat, forced: nat,
                       snapshot: seq<Worker>, dupes: seq<nat>, history: History)

  datatype State = State(cfg: Config, net: Net, workers: Workers, events: EventsState, cache: QueueCache, life: Life)

  const NO_HISTORY := History([], 0, [], 0, [], [], 0, false)
  const UNSTARTED := Life(Running, None, 0, 0, [], [], NO_HISTORY)

  function Boot(cfg: Config): State {
    State(cfg, Booted(cfg.mode), Workers([], map[], 0), EventsState([], []), QueueCache([], 0), UNSTARTED)
  }

  function At(s: State, p: Phase): State {
    s.(life := s.life.(phase := p))
  }

  function Calling(s: State, e: Effect, p: Phase): State {
    At(s.(net := Emitted(s.net, e)), p)
  }

  function Remember(s: State, h: History): State {
    s.(life := s.life.(history := h))
  }

  function ModuleDestroyStep(s: State): State {
    if s.life.phase != Running then s
    else
      s.(life := s.life.(phase := WorkerLoop(0, false, s.net.clock), startedAt := Some(s.net.clock),
                         snapshot := WorkersOf(Values(s.workers.entries))))
  }

  /** NestJS runs the second hook only after the first has returned. */
  function ApplicationShutdownStep(s: State): State {
    if s.life.phase != Destroyed then s
    else At(s, if s.cfg.drainOnShutdown then DrainLoop(0, false) else Producer(false))
  }

  /** The hook waits for a call it made. */
  predicate Busy(p: Phase) {
    match p
    case WorkerLoop(_, busy, _) => busy
    case EventsLoop(_, busy) => busy
    case DupeLoop(_, busy) => busy
    case DrainLoop(_, busy) => busy
    case Producer(busy) => busy
    case QueueLoop(_, busy) => busy
    case Role(busy) => busy
    case _ => false
  }

  /** One turn of a loop head: make the next call, or leave the loop. */
  function AdvanceStep(s: State): State {
    var h := s.life.history;
    if Busy(s.life.phase) then s
    else
      match s.life.phase
      case WorkerLoop(i, _, _) =>
        if i < |s.life.snapshot| then
          Calling(s, CloseWorker(Shutdown, s.life.snapshot[i]), WorkerLoop(i, true, s.net.clock))
        else
          s.(life := s.life.(phase := EventsLoop(0, false), forcedWorkers := s.life.forced,
                             history := h.(drainedAt := s.net.clock)))
      case EventsLoop(i, _) =>
        if i < |s.events.events| then
          match s.events.events[i]
          case Full(_, ev) => Calling(s, CloseEvents(ev), EventsLoop(i, true))
          case Empty => At(s, EventsLoop(i + 1, false))
        else At(Remember(s, h.(events := Values(s.events.events))), DupesStart)
      case DupesStart =>
        s.(life := s.life.(phase := DupeLoop(0, false),
                           dupes := ConnectionsOf(Values(s.workers.entries)) + Values(s.events.connections),
                           history := h.(issuedAtDupes := s.net.issued)))
      case DupeLoop(i, _) =>
        if i < |s.life.dupes| then Calling(s, Quit(Shutdown, s.life.dupes[i]), DupeLoop(i, true))
        else At(s, Destroyed)
      case DrainLoop(i, _) =>
        if i < |s.cache.queues| then
          match s.cache.queues[i]
          case Full(_, q) => Calling(s, DrainQueue(q), DrainLoop(i, true))
          case Empty => At(s, DrainLoop(i + 1, false))
        else At(Remember(s, h.(drained := Values(s.cache.queues))), Producer(false))
      case Producer(_) =>
        if s.cfg.flows then Calling(s, CloseProducer, Producer(true)) else At(s, QueueLoop(0, false))
      case QueueLoop(i, _) =>
        if i < |s.cache.queues| then
          match s.cache.queues[i]
          case Full(_, q) => Calling(s, CloseQueue(q), QueueLoop(i, true))
          case Empty => At(s, QueueLoop(i + 1, false))
        else
          At(Remember(s, h.(queues := Values(s.cache.queues), createdAtClear := s.cache.created)).(
               cache := ClearStep(s.cache)),
             Role(false))
      case Role(_) =>
        if s.cfg.mode == ModeB then Calling(s, Quit(Shutdown, ROLE), Role(true)) else At(s, Done)
      case _ => s
  }

  /** A graceful worker close raced against the drain timer: the timer cannot win before its
      budget has elapsed, and a close that did not resolve is followed by a forced one. */
  function SettleWorkerStep(s: State, o: Outcome): State
    requires s.life.phase.WorkerLoop?
  {
    var WorkerLoop(i, _, since) := s.life.phase;
    var h := s.life.history;
    if i >= |s.life.snapshot| || (o == TimedOut && s.net.clock < since + s.cfg.drainTimeout) then s
    else
      var settled := At(Remember(s, h.(outcomes := h.outcomes + [o])), WorkerLoop(i + 1, false, since));
      if o == Resolved then settled
      else
        settled.(net := Emitted(s.net, ForceWorker(s.life.snapshot[i])),
                 life := settled.life.(forced := s.life.forced + 1))
  }

  /** The awaited call ends. Only a worker close races a timer. */
  function SettleStep(s: State, o: Outcome): State {
    if !Busy(s.life.phase) then s
    else if s.life.phase.WorkerLoop? then SettleWorkerStep(s, o)
    else if o == TimedOut then s
    else
      match s.life.phase
      case EventsLoop(i, _) => At(s, EventsLoop(i + 1, false))
      case DupeLoop(i, _) =>
        if i >= |s.life.dupes| then s
        else At(s.(net := QuitSettled(s.net, Shutdown, s.life.dupes[i], o == Resolved)), DupeLoop(i + 1, false))
      case DrainLoop(i, _) => At(s, DrainLoop(i + 1, false))
      case Producer(_) => At(s, QueueLoop(0, false))
      case QueueLoop(i, _) => At(s, QueueLoop(i + 1, false))
      case Role(_) =>
        At(Remember(s, s.life.history.(roleRejected := o == Rejected)).(
             net := QuitSettled(s.net, Shutdown, ROLE, o == Resolved)),
           Done)
      case _ => s
  }

  class QueueLifecycle {
    const cfg: Config
    const network: Network
    const workers: WorkerRegistry
    const events: QueueEventsRegistry
    const queues: QueueService
    var phase: Phase
    var startedAt: Option<nat>
    var forcedWorkers: nat
    var forced: nat
    var snapshot: seq<Worker>
    var dupes: seq<nat>
    var history: History

    constructor (cfg: Config, network: Network, workers: WorkerRegistry, events: QueueEventsRegistry,
                 queues: QueueService)
      ensures this.cfg == cfg && this.network == network && this.workers == workers
      ensures this.events == events && this.queues == queues && LifeModel() == UNSTARTED
    {
      this.cfg, this.network, this.workers, this.events, this.queues := cfg, network, workers, events, queues;
      phase, startedAt, forcedWorkers, forced := Running, None, 0, 0;
      snapshot, dupes, history := [], [], NO_HISTORY;
    }

    ghost function LifeModel(): Life
      reads this
    {
      Life(phase, startedAt, forcedWorkers, forced, snapshot, dupes, history)
    }

    ghost function Model(): State
      reads this, network, workers, events, queues
    {
      State(cfg, network.net, workers.Model(), events.Model(), queues.Model(), LifeModel())
    }

    method OnModuleDestroy()
      modifies this
      ensures Model() == ModuleDestroyStep(old(Model()))
    {
      if phase == Running {
        startedAt := Some(network.net.clock);
        snapshot := workers.GetAll();
        phase := WorkerLoop(0, false, network.net.clock);
      }
    }

    method OnApplicationShutdown()
      modifies this
      ensures Model() == ApplicationShutdownStep(old(Model()))
    {
      if phase == Destroyed {
        phase := if cfg.drainOnShutdown then DrainLoop(0, false) else Producer(false);
      }
    }

    method Call(e: Effect, p: Phase)
      modifies this, network
      ensures Model() == Calling(old(Model()), e, p)
    {
      network.Emit(e);
      phase := p;
    }

    method Advance()
      modifies this, network, queues
      ensures Model() == AdvanceStep(old(Model()))
    {
      if Busy(phase) {
        return;
      }
      match phase
      case WorkerLoop(i, _, _) =>
        if i < |snapshot| {
          Call(CloseWorker(Shutdown, snapshot[i]), WorkerLoop(i, true, network.net.clock));
        } else {
          forcedWorkers := forced;
          history := history.(drainedAt := network.net.clock);
          phase := EventsLoop(0, false);
        }
      case EventsLoop(i, _) =>
        if i >= |events.events| {
          history := history.(events := Values(events.events));
          phase := DupesStart;
        } else if events.events[i].Full? {
          Call(CloseEvents(events.events[i].value), EventsLoop(i, true));
        } else {
          phase := EventsLoop(i + 1, false);
        }
      case DupesStart =>
        dupes := workers.GetConnections() + events.GetConnections();
        history := history.(issuedAtDupes := network.net.issued);
        phase := DupeLoop(0, false);
      case DupeLoop(i, _) =>
        if i < |dupes| {
          Call(Quit(Shutdown, dupes[i]), DupeLoop(i, true));
        } else {
          phase := Destroyed;
        }
      case DrainLoop(i, _) =>
        if i >= |queues.queues| {
          history := history.(drained := Values(queues.queues));
          phase := Producer(false);
        } else if queues.queues[i].Full? {
          Call(DrainQueue(queues.queues[i].value), DrainLoop(i, true));
        } else {
          phase := DrainLoop(i + 1, false);
        }
      case Producer(_) =>
        if cfg.flows {
          Call(CloseProducer, Producer(true));
        } else {
          phase := QueueLoop(0, false);
        }
      case QueueLoop(i, _) =>
        if i >= |queues.queues| {
          history := history.(queues := Values(queues.queues), createdAtClear := queues.created);
          queues.ClearQueues();
          phase := Role(false);
        } else if queues.queues[i].Full? {
          Call(CloseQueue(queues.queues[i].value), QueueLoop(i, true));
        } else {
          phase := QueueLoop(i + 1, false);
        }
      case Role(_) =>
        if cfg.mode == ModeB {
          Call(Quit(Shutdown, ROLE), Role(true));
        } else {
          phase := Done;
        }
      case _ =>
    }

    method Settle(o: Outcome)
      modifies this, network
      ensures Model() == SettleStep(old(Model()), o)
    {
      if !Busy(phase) {
        return;
      }
      if phase.WorkerLoop? {
        SettleWorker(o);
      } else if o != TimedOut {
        match phase
        case EventsLoop(i, _) => phase := EventsLoop(i + 1, false);
        case DupeLoop(i, _) =>
          if i < |dupes| {
            network.SettleQuit(Shutdown, dupes[i], o == Resolved);
            phase := DupeLoop(i + 1, false);
          }
        case DrainLoop(i, _) => phase := DrainLoop(i + 1, false);
        case Producer(_) => phase := QueueLoop(0, false);
        case QueueLoop(i, _) => phase := QueueLoop(i + 1, false);
        case Role(_) =>
          network.SettleQuit(Shutdown, ROLE, o == Resolved);
          history := history.(roleRejected := o == Rejected);
          phase := Done;
        case _ =>
      }
    }

    method SettleWorker(o: Outcome)
      requires phase.WorkerLoop?
      modifies this, network
      ensures Model() == SettleWorkerStep(old(Model()), o)
    {
      var WorkerLoop(i, _, since) := phase;
      if i < |snapshot| && (o != TimedOut || network.net.clock >= since + cfg.drainTimeout) {
        if o != Resolved {
          forced := forced + 1;
          network.Emit(ForceWorker(snapshot[i]));
        }
        history := history.(outcomes := history.outcomes + [o]);
        phase := WorkerLoop(i + 1, false, since);
      }
    }
  }
}
