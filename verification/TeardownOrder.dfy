/** What the shutdown calls, in which order, under every interleaving and every outcome. */
module TeardownOrder {
  import opened JsMaps
  import opened Networks
  import opened ConnectionResolvers
  import opened QueueLifecycles
  import opened Runtimes

  function ClosesWorker(w: Worker): Effect { CloseWorker(Shutdown, w) }
  function ClosesEvents(ev: QueueEvents): Effect { CloseEvents(ev) }
  function Quits(c: nat): Effect { Quit(Shutdown, c) }
  function Drains(q: Queue): Effect { DrainQueue(q) }
  function ClosesQueue(q: Queue): Effect { CloseQueue(q) }

  /** The calls made for the first `n` elements. */
  function Each<T>(f: T -> Effect, xs: seq<T>, n: nat): seq<Effect>
    requires n <= |xs|
  {
    if n == 0 then [] else Each(f, xs, n - 1) + [f(xs[n - 1])]
  }

  /** The calls made when a cursor into a live map has moved over its first `n` slots. */
  function EachValue<V>(f: V -> Effect, m: JsMap<string, V>, n: nat): seq<Effect>
    requires n <= |m|
  {
    if n == 0 then []
    else EachValue(f, m, n - 1) + if m[n - 1].Full? then [f(m[n - 1].value)] else []
  }

  function All<T>(f: T -> Effect, xs: seq<T>): seq<Effect> {
    Each(f, xs, |xs|)
  }

  lemma {:induction false} EachGrows<T>(f: T -> Effect, xs: seq<T>, ys: seq<T>, n: nat)
    requires n <= |xs| && xs <= ys
    ensures Each(f, ys, n) == Each(f, xs, n)
  {
    if n > 0 {
      EachGrows(f, xs, ys, n - 1);
    }
  }

  lemma {:induction false} EachValueGrows<V>(f: V -> Effect, m: JsMap<string, V>, m': JsMap<string, V>, n: nat)
    requires n <= |m| && m <= m'
    ensures EachValue(f, m', n) == EachValue(f, m, n)
  {
    if n > 0 {
      EachValueGrows(f, m, m', n - 1);
    }
  }

  /** A cursor that has reached the end has met every value, once and in order. */
  lemma {:induction false} EachValueIsAll<V>(f: V -> Effect, m: JsMap<string, V>)
    ensures EachValue(f, m, |m|) == All(f, Values(m))
  {
    if m != [] {
      var n := |m| - 1;
      EachValueIsAll(f, m[..n]);
      EachValueGrows(f, m[..n], m, n);
      var values := Values(m[..n]);
      EachGrows(f, values, Values(m), |values|);
    }
  }

  /** A teardown call of the shutdown, as opposed to the force-closes and disconnects it inserts
      when one fails, and to what `unregister` does. */
  predicate Primary(e: Effect) {
    match e
    case CloseWorker(actor, _) => actor == Shutdown
    case Quit(actor, _) => actor == Shutdown
    case ForceWorker(_) => false
    case Disconnect(_, _) => false
    case _ => true
  }

  function PrimaryCalls(log: seq<Effect>): seq<Effect> {
    if log == [] then []
    else
      var last := log[|log| - 1];
      PrimaryCalls(log[..|log| - 1]) + if Primary(last) then [last] else []
  }

  lemma PrimaryAppend(log: seq<Effect>, e: Effect)
    ensures PrimaryCalls(log + [e]) == PrimaryCalls(log) + if Primary(e) then [e] else []
  {
    assert (log + [e])[..|log|] == log;
  }

  // ---- The calls due when each part of the two hooks is over ----

  /** What the completed loops went over. */
  datatype Parts = Parts(
    workers: seq<Worker>, events: seq<QueueEvents>, dupes: seq<nat>, drained: seq<Queue>, queues: seq<Queue>)

  function PartsOf(l: Life): Parts {
    Parts(l.snapshot, l.history.events, l.dupes, l.history.drained, l.history.queues)
  }

  function WorkersClosed(p: Parts): seq<Effect> { All(ClosesWorker, p.workers) }
  function EventsClosed(p: Parts): seq<Effect> { WorkersClosed(p) + All(ClosesEvents, p.events) }
  function DupesQuit(p: Parts): seq<Effect> { EventsClosed(p) + All(Quits, p.dupes) }
  function QueuesDrained(p: Parts): seq<Effect> { DupesQuit(p) + All(Drains, p.drained) }
  function ProducerClosed(cfg: Config, p: Parts): seq<Effect> {
    QueuesDrained(p) + if cfg.flows then [CloseProducer] else []
  }
  function QueuesClosed(cfg: Config, p: Parts): seq<Effect> {
    ProducerClosed(cfg, p) + All(ClosesQueue, p.queues)
  }
  function RoleQuit(cfg: Config, p: Parts): seq<Effect> {
    QueuesClosed(cfg, p) + if cfg.mode == ModeB then [Quit(Shutdown, ROLE)] else []
  }

  /** The calls of the parts that are over. */
  function Before(cfg: Config, phase: Phase, p: Parts): seq<Effect> {
    match Rank(phase)
    case 0 => []
    case 1 => []
    case 2 => WorkersClosed(p)
    case 3 => EventsClosed(p)
    case 4 => EventsClosed(p)
    case 5 => DupesQuit(p)
    case 6 => DupesQuit(p)
    case 7 => QueuesDrained(p)
    case 8 => ProducerClosed(cfg, p)
    case 9 => QueuesClosed(cfg, p)
    case _ => RoleQuit(cfg, p)
  }

  /** The calls of the part the hooks stand in, from what the iterated map or array holds. */
  function Current(s: State): seq<Effect>
    requires InBounds(s)
  {
    match s.life.phase
    case WorkerLoop(i, busy, _) => Each(ClosesWorker, s.life.snapshot, Made(i, busy))
    case EventsLoop(i, busy) => EachValue(ClosesEvents, s.events.events, Made(i, busy))
    case DupeLoop(i, busy) => Each(Quits, s.life.dupes, Made(i, busy))
    case DrainLoop(i, busy) => EachValue(Drains, s.cache.queues, Made(i, busy))
    case Producer(busy) => if busy then [CloseProducer] else []
    case QueueLoop(i, busy) => EachValue(ClosesQueue, s.cache.queues, Made(i, busy))
    case Role(busy) => if busy then [Quit(Shutdown, ROLE)] else []
    case _ => []
  }

  /** The shutdown has made exactly the calls due so far, in the order they are due. */
  ghost predicate InOrder(s: State) {
    && InBounds(s)
    && PrimaryCalls(s.net.log) == Before(s.cfg, s.life.phase, PartsOf(s.life)) + Current(s)
    && (s.life.phase == Producer(true) ==> s.cfg.flows)
    && (s.life.phase == Role(true) ==> s.cfg.mode == ModeB)
    && (Rank(s.life.phase) < 7 ==> s.life.history.drained == [])
  }

  lemma Extends(s: State, s': State, e: Effect)
    requires InOrder(s) && InBounds(s') && Primary(e) && s'.net.log == s.net.log + [e]
    requires Before(s'.cfg, s'.life.phase, PartsOf(s'.life)) == Before(s.cfg, s.life.phase, PartsOf(s.life))
    requires Current(s') == Current(s) + [e]
    ensures PrimaryCalls(s'.net.log) == Before(s'.cfg, s'.life.phase, PartsOf(s'.life)) + Current(s')
  {
    PrimaryAppend(s.net.log, e);
  }

  lemma AdvanceWorkers(s: State)
    requires InOrder(s) && s.life.phase.WorkerLoop? && !Busy(s.life.phase)
    ensures InOrder(AdvanceStep(s))
  {
    var i := s.life.phase.i;
    if i < |s.life.snapshot| {
      Extends(s, AdvanceStep(s), CloseWorker(Shutdown, s.life.snapshot[i]));
    }
  }

  lemma AdvanceEvents(s: State)
    requires InOrder(s) && s.life.phase.EventsLoop? && !Busy(s.life.phase)
    ensures InOrder(AdvanceStep(s))
  {
    var i, events := s.life.phase.i, s.events.events;
    if i == |events| {
      EachValueIsAll(ClosesEvents, events);
    } else if events[i].Full? {
      Extends(s, AdvanceStep(s), CloseEvents(events[i].value));
    }
  }

  lemma AdvanceDupes(s: State)
    requires InOrder(s) && s.life.phase.DupeLoop? && !Busy(s.life.phase)
    ensures InOrder(AdvanceStep(s))
  {
    var i := s.life.phase.i;
    if i < |s.life.dupes| {
      Extends(s, AdvanceStep(s), Quit(Shutdown, s.life.dupes[i]));
    } else {
      LeaveDupes(s);
    }
  }

  lemma LeaveDupes(s: State)
    requires InOrder(s) && s.life.phase.DupeLoop? && !Busy(s.life.phase) && s.life.phase.i == |s.life.dupes|
    ensures InOrder(AdvanceStep(s))
  {
    assert PartsOf(AdvanceStep(s).life) == PartsOf(s.life);
  }

  lemma LeaveDrain(s: State)
    requires InOrder(s) && s.life.phase.DrainLoop? && !Busy(s.life.phase) && s.life.phase.i == |s.cache.queues|
    ensures InOrder(AdvanceStep(s))
  {
    var p, p' := PartsOf(s.life), PartsOf(AdvanceStep(s).life);
    EachValueIsAll(Drains, s.cache.queues);
    assert p' == p.(drained := Values(s.cache.queues));
    assert DupesQuit(p') == DupesQuit(p);
  }

  lemma AdvanceDrain(s: State)
    requires InOrder(s) && s.life.phase.DrainLoop? && !Busy(s.life.phase)
    ensures InOrder(AdvanceStep(s))
  {
    var i, queues := s.life.phase.i, s.cache.queues;
    if i == |queues| {
      LeaveDrain(s);
    } else if queues[i].Full? {
      Extends(s, AdvanceStep(s), DrainQueue(queues[i].value));
    }
  }

  lemma CallQueue(s: State)
    requires InOrder(s) && s.life.phase.QueueLoop? && !Busy(s.life.phase) && s.life.phase.i < |s.cache.queues|
    requires s.cache.queues[s.life.phase.i].Full?
    ensures InOrder(AdvanceStep(s))
  {
    Extends(s, AdvanceStep(s), CloseQueue(s.cache.queues[s.life.phase.i].value));
  }

  lemma AdvanceQueues(s: State)
    requires InOrder(s) && s.life.phase.QueueLoop? && !Busy(s.life.phase)
    ensures InOrder(AdvanceStep(s))
  {
    var i, queues := s.life.phase.i, s.cache.queues;
    if i == |queues| {
      LeaveQueues(s);
    } else if queues[i].Full? {
      CallQueue(s);
    } else {
      SkipQueue(s);
    }
  }

  lemma SkipQueue(s: State)
    requires InOrder(s) && s.life.phase.QueueLoop? && !Busy(s.life.phase) && s.life.phase.i < |s.cache.queues|
    requires s.cache.queues[s.life.phase.i].Empty?
    ensures InOrder(AdvanceStep(s))
  {
  }

  lemma LeaveQueues(s: State)
    requires InOrder(s) && s.life.phase.QueueLoop? && !Busy(s.life.phase) && s.life.phase.i == |s.cache.queues|
    ensures InOrder(AdvanceStep(s))
  {
    var queues := s.cache.queues;
    var p, p' := PartsOf(s.life), PartsOf(AdvanceStep(s).life);
    EachValueIsAll(ClosesQueue, queues);
    assert p' == p.(queues := Values(queues));
    assert ProducerClosed(s.cfg, p') == ProducerClosed(s.cfg, p);
  }

  lemma AdvanceCopy(s: State)
    requires InOrder(s) && s.life.phase.DupesStart?
    ensures InOrder(AdvanceStep(s))
  {
  }

  lemma AdvanceProducer(s: State)
    requires InOrder(s) && s.life.phase.Producer? && !Busy(s.life.phase)
    ensures InOrder(AdvanceStep(s))
  {
    if s.cfg.flows {
      Extends(s, AdvanceStep(s), CloseProducer);
    }
  }

  lemma AdvanceRole(s: State)
    requires InOrder(s) && s.life.phase.Role? && !Busy(s.life.phase)
    ensures InOrder(AdvanceStep(s))
  {
    if s.cfg.mode == ModeB {
      Extends(s, AdvanceStep(s), Quit(Shutdown, ROLE));
    }
  }

  lemma AdvanceKeepsOrder(s: State)
    requires InOrder(s)
    ensures InOrder(AdvanceStep(s))
  {
    if !Busy(s.life.phase) {
      match s.life.phase
      case WorkerLoop(_, _, _) => AdvanceWorkers(s);
      case EventsLoop(_, _) => AdvanceEvents(s);
      case DupeLoop(_, _) => AdvanceDupes(s);
      case DrainLoop(_, _) => AdvanceDrain(s);
      case QueueLoop(_, _) => AdvanceQueues(s);
      case Running =>
      case Destroyed =>
      case Done =>
      case DupesStart => AdvanceCopy(s);
      case Producer(_) => AdvanceProducer(s);
      case Role(_) => AdvanceRole(s);
    }
  }

  lemma QuitInserts(n: Net, c: nat, ok: bool)
    ensures PrimaryCalls(QuitSettled(n, Shutdown, c, ok).log) == PrimaryCalls(n.log)
  {
    PrimaryAppend(n.log, Disconnect(Shutdown, c));
  }

  lemma SettleWorkerInserts(s: State, o: Outcome)
    requires s.life.phase.WorkerLoop?
    ensures PrimaryCalls(SettleWorkerStep(s, o).net.log) == PrimaryCalls(s.net.log)
  {
    var i := s.life.phase.i;
    if i < |s.life.snapshot| {
      PrimaryAppend(s.net.log, ForceWorker(s.life.snapshot[i]));
    }
  }

  /** Between two calls only a force-close or a disconnect is inserted. */
  lemma SettleInserts(s: State, o: Outcome)
    ensures PrimaryCalls(SettleStep(s, o).net.log) == PrimaryCalls(s.net.log)
  {
    if s.life.phase.WorkerLoop? {
      SettleWorkerInserts(s, o);
    } else if s.life.phase.DupeLoop? && s.life.phase.i < |s.life.dupes| {
      QuitInserts(s.net, s.life.dupes[s.life.phase.i], o == Resolved);
    } else if s.life.phase.Role? {
      QuitInserts(s.net, ROLE, o == Resolved);
    } else {
      assert SettleStep(s, o).net == s.net;
    }
  }

  lemma SettleKeepsOrder(s: State, o: Outcome)
    requires InOrder(s)
    ensures InOrder(SettleStep(s, o))
  {
    var s' := SettleStep(s, o);
    SettleInserts(s, o);
    if s' != s && (s.life.phase.Producer? || s.life.phase.Role?) {
      SettleLeaves(s, o);
    } else {
      assert PartsOf(s'.life) == PartsOf(s.life);
      assert Rank(s'.life.phase) == Rank(s.life.phase);
    }
  }

  lemma SettleLeaves(s: State, o: Outcome)
    requires InOrder(s) && SettleStep(s, o) != s && (s.life.phase.Producer? || s.life.phase.Role?)
    ensures InOrder(SettleStep(s, o))
  {
    var s' := SettleStep(s, o);
    SettleInserts(s, o);
    assert PartsOf(s'.life) == PartsOf(s.life);
    assert Current(s') == [];
  }

  /** Calls from outside the shutdown neither make its calls nor change what it has gone over:
      the maps it iterates live only grow beyond its cursor. */
  lemma OtherKeepsOrder(s: State, e: Event)
    requires InOrder(s) && !e.Advance? && !e.Settle?
    requires s.events.events <= Step(s, e).events.events
    requires Rank(s.life.phase) < 9 ==> s.cache.queues <= Step(s, e).cache.queues
    ensures InOrder(Step(s, e))
  {
    var s' := Step(s, e);
    OtherEmits(s, e);
    OtherLeavesLife(s, e);
    if s'.life == s.life {
      match s.life.phase
      case EventsLoop(i, busy) => EachValueGrows(ClosesEvents, s.events.events, s'.events.events, Made(i, busy));
      case DrainLoop(i, busy) => EachValueGrows(Drains, s.cache.queues, s'.cache.queues, Made(i, busy));
      case QueueLoop(i, busy) => EachValueGrows(ClosesQueue, s.cache.queues, s'.cache.queues, Made(i, busy));
      case _ =>
    }
  }

  /** Outside the shutdown a step makes at most one call, and none of the shutdown's. */
  lemma OtherLogs(s: State, e: Event)
    requires !e.Advance? && !e.Settle?
    ensures var log, log' := s.net.log, Step(s, e).net.log;
            log' == log || (|log'| == |log| + 1 && log'[..|log|] == log && !Primary(log'[|log|]))
  {
  }

  lemma OtherEmits(s: State, e: Event)
    requires !e.Advance? && !e.Settle?
    ensures PrimaryCalls(Step(s, e).net.log) == PrimaryCalls(s.net.log)
  {
    OtherLogs(s, e);
    var log, log' := s.net.log, Step(s, e).net.log;
    if log' != log {
      assert log' == log + [log'[|log|]];
      PrimaryAppend(log, log'[|log|]);
    }
  }

  lemma OtherLeavesLife(s: State, e: Event)
    requires !e.Advance? && !e.Settle?
    ensures Step(s, e).cfg == s.cfg
    ensures Step(s, e).life == s.life
         || (e == ModuleDestroy && Step(s, e) == ModuleDestroyStep(s) && s.life.phase == Running)
         || (e == ApplicationShutdown && Step(s, e) == ApplicationShutdownStep(s) && s.life.phase == Destroyed)
  {
  }

  lemma StepKeepsOrder(s: State, e: Event)
    requires Sound(s) && InOrder(s)
    ensures Sound(Step(s, e)) && InOrder(Step(s, e))
  {
    StepKeepsSound(s, e);
    StepKeepsEvents(s, e);
    StepKeepsCache(s, e);
    match e
    case Advance => AdvanceKeepsOrder(s);
    case Settle(o) => SettleKeepsOrder(s, o);
    case _ => OtherKeepsOrder(s, e);
  }

  lemma {:induction false} RunKeepsOrder(s: State, es: seq<Event>)
    requires Sound(s) && InOrder(s)
    ensures Sound(Run(s, es)) && InOrder(Run(s, es))
    decreases |es|
  {
    if es != [] {
      StepKeepsOrder(s, es[0]);
      RunKeepsOrder(Step(s, es[0]), es[1..]);
    }
  }

  lemma BootInOrder(cfg: Config)
    ensures Sound(Boot(cfg)) && InOrder(Boot(cfg))
  {
    BootSound(cfg);
    if cfg.mode == ModeA {
      PrimaryAppend([], Disconnect(Bootstrap, 1));
    }
  }
}
