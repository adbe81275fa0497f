/** What the hooks do when the call they await ends: told from the call itself, the last one the
    shutdown made, whichever loop made it, and from the time that has passed since. */
module AwaitedCalls {
  import opened Networks
  import opened QueueLifecycles
  import opened Runtimes
  import opened TeardownOrder
  import opened Shutdown

  /** The call a busy phase stands for. */
  function CallOf(s: State): Effect
    requires Sound(s) && Busy(s.life.phase)
  {
    match s.life.phase
    case WorkerLoop(i, _, _) => CloseWorker(Actor.Shutdown, s.life.snapshot[i])
    case EventsLoop(i, _) => CloseEvents(s.events.events[i].value)
    case DupeLoop(i, _) => Quit(Actor.Shutdown, s.life.dupes[i])
    case DrainLoop(i, _) => DrainQueue(s.cache.queues[i].value)
    case Producer(_) => CloseProducer
    case QueueLoop(i, _) => CloseQueue(s.cache.queues[i].value)
    case _ => Quit(Actor.Shutdown, ROLE)
  }

  ghost predicate EndsWith(calls: seq<Effect>, e: Effect) {
    calls != [] && calls[|calls| - 1] == e
  }

  lemma LoopEnds(s: State)
    requires Sound(s) && (s.life.phase.WorkerLoop? || s.life.phase.DupeLoop?) && Busy(s.life.phase)
    ensures EndsWith(Current(s), CallOf(s))
  {
  }

  lemma LiveLoopEnds(s: State)
    requires Sound(s) && (s.life.phase.EventsLoop? || s.life.phase.DrainLoop? || s.life.phase.QueueLoop?)
    requires Busy(s.life.phase)
    ensures EndsWith(Current(s), CallOf(s))
  {
  }

  lemma CurrentEnds(s: State)
    requires Sound(s) && Busy(s.life.phase)
    ensures EndsWith(Current(s), CallOf(s))
  {
    if s.life.phase.WorkerLoop? || s.life.phase.DupeLoop? {
      LoopEnds(s);
    } else if s.life.phase.EventsLoop? || s.life.phase.DrainLoop? || s.life.phase.QueueLoop? {
      LiveLoopEnds(s);
    }
  }

  lemma EndStays(x: seq<Effect>, y: seq<Effect>, e: Effect)
    requires EndsWith(y, e)
    ensures EndsWith(x + y, e)
  {
  }

  lemma AwaitsItsCall(s: State)
    requires Sound(s) && InOrder(s) && Busy(s.life.phase)
    ensures EndsWith(PrimaryCalls(s.net.log), CallOf(s))
  {
    CurrentEnds(s);
    EndStays(Before(s.cfg, s.life.phase, PartsOf(s.life)), Current(s), CallOf(s));
  }

  /** The world after a call of the shutdown resolved. */
  function Resolving(n: Net, call: Effect): Net {
    if call.Quit? then n.(released := n.released + {call.connection}) else n
  }

  /** The world after it failed: a worker is forced, a connection disconnected, and nothing else is
      done about it. */
  function Failing(n: Net, call: Effect): Net {
    match call
    case CloseWorker(_, w) => n.(log := n.log + [ForceWorker(w)])
    case Quit(_, c) => n.(log := n.log + [Disconnect(Actor.Shutdown, c)], released := n.released + {c})
    case _ => n
  }

  /** What the end of a call leads to: the world changes as the call and its outcome say, and the
      hook waits no more. */
  ghost predicate GoesOn(s: State, s': State, net: Net) {
    s'.net == net && !Busy(s'.life.phase) && s'.workers == s.workers && s'.events == s.events && s'.cache == s.cache
  }

  lemma BusyGoesOn(s: State, o: Outcome)
    requires Sound(s) && Busy(s.life.phase)
    ensures o == Resolved ==> GoesOn(s, SettleStep(s, o), Resolving(s.net, CallOf(s)))
    ensures o == Rejected ==> GoesOn(s, SettleStep(s, o), Failing(s.net, CallOf(s)))
    ensures o == TimedOut && !s.life.phase.WorkerLoop? ==> SettleStep(s, o) == s
    ensures o == TimedOut && s.life.phase.WorkerLoop? ==>
              if s.net.clock >= s.life.phase.since + s.cfg.drainTimeout
              then GoesOn(s, SettleStep(s, o), Failing(s.net, CallOf(s))) else SettleStep(s, o) == s
  {
  }

  /** What the outcome of the last call made leads to. */
  ghost predicate EndsAs(s: State, s': State, o: Outcome) {
    var calls := PrimaryCalls(s.net.log);
    && calls != []
    && var call := calls[|calls| - 1];
       && (o == Resolved ==> GoesOn(s, s', Resolving(s.net, call)))
       && (o == Rejected ==> GoesOn(s, s', Failing(s.net, call)))
       && (o == TimedOut ==> s' == s || (call.CloseWorker? && GoesOn(s, s', Failing(s.net, call))))
  }

  lemma SettlesLast(s: State, o: Outcome)
    requires Sound(s) && InOrder(s) && Busy(s.life.phase)
    ensures EndsAs(s, SettleStep(s, o), o)
  {
    AwaitsItsCall(s);
    BusyGoesOn(s, o);
  }

  /** In every reachable state in which a hook waits, it waits for the last call the shutdown made,
      and how that call ends decides what happens: a resolved quit releases its connection, a
      rejected one is followed by a disconnect of the same connection; a worker close that rejects
      or loses against the timer by a force-close of the same worker; any other rejection is
      swallowed; and no timer ends any other call. */
  lemma SettlesAsAwaited(cfg: Config, es: seq<Event>, o: Outcome)
    requires Busy(Run(Boot(cfg), es).life.phase)
    ensures EndsAs(Run(Boot(cfg), es), Run(Boot(cfg), es + [Settle(o)]), o)
  {
    var s := Run(Boot(cfg), es);
    ReachableIsProper(cfg, es);
    SettlesLast(s, o);
    RunAppend(Boot(cfg), es, [Settle(o)]);
    RunCons(s, Settle(o), []);
  }

  // ---- The drain timer ----

  /** Since `s` the hook has kept waiting, or has gone on and waits for nothing, or has made a call. */
  ghost predicate WaitsSince(s: State, t: State) {
    var before, now := |PrimaryCalls(s.net.log)|, |PrimaryCalls(t.net.log)|;
    && t.cfg == s.cfg
    && (now > before || (now == before && (!Busy(t.life.phase) || t.life == s.life)))
  }

  lemma CallsGrow(t: State, e: Event)
    ensures |PrimaryCalls(t.net.log)| <= |PrimaryCalls(Step(t, e).net.log)|
    ensures !Busy(t.life.phase) && Busy(Step(t, e).life.phase) ==>
              |PrimaryCalls(t.net.log)| < |PrimaryCalls(Step(t, e).net.log)|
  {
    StepEmits(t, e);
    if !Busy(t.life.phase) && Busy(Step(t, e).life.phase) {
      NewlyBusy(t, e);
    }
    var log, log' := t.net.log, Step(t, e).net.log;
    if log' != log {
      assert log' == log + [log'[|log|]];
      PrimaryAppend(log, log'[|log|]);
    }
  }

  lemma NewlyBusy(t: State, e: Event)
    requires !Busy(t.life.phase) && Busy(Step(t, e).life.phase)
    ensures |Step(t, e).net.log| > |t.net.log| && Primary(Step(t, e).net.log[|t.net.log|])
  {
  }

  lemma BusyStays(t: State, e: Event)
    requires Busy(t.life.phase)
    ensures Step(t, e).life == t.life || !Busy(Step(t, e).life.phase)
  {
  }

  lemma {:induction false} RunWaits(s: State, t: State, es: seq<Event>)
    requires Busy(s.life.phase) && WaitsSince(s, t)
    ensures WaitsSince(s, Run(t, es))
    decreases |es|
  {
    if es != [] {
      var t' := Step(t, es[0]);
      StepEmits(t, es[0]);
      CallsGrow(t, es[0]);
      if Busy(t.life.phase) {
        BusyStays(t, es[0]);
      }
      RunWaits(s, t', es[1..]);
    }
  }

  lemma StillWaits(s: State, es: seq<Event>)
    requires Busy(s.life.phase) && Busy(Run(s, es).life.phase)
    requires PrimaryCalls(Run(s, es).net.log) == PrimaryCalls(s.net.log)
    ensures Run(s, es).life == s.life && Run(s, es).cfg == s.cfg
  {
    RunWaits(s, s, es);
  }

  lemma WorkerAsked(s: State, w: Worker)
    requires Step(s, Advance).net.log == s.net.log + [CloseWorker(Actor.Shutdown, w)]
    ensures Step(s, Advance).life.phase.WorkerLoop? && Busy(Step(s, Advance).life.phase)
    ensures Step(s, Advance).life.phase.since == s.net.clock && Step(s, Advance).cfg == s.cfg
  {
    var log' := Step(s, Advance).net.log;
    assert log'[|s.net.log|] == CloseWorker(Actor.Shutdown, w);
  }

  lemma TimerEnds(t: State, w: Worker)
    requires Sound(t) && InOrder(t) && t.life.phase.WorkerLoop? && Busy(t.life.phase)
    requires EndsWith(PrimaryCalls(t.net.log), CloseWorker(Actor.Shutdown, w))
    ensures if t.net.clock >= t.life.phase.since + t.cfg.drainTimeout
            then Step(t, Settle(TimedOut)).net.log == t.net.log + [ForceWorker(w)]
            else Step(t, Settle(TimedOut)) == t
  {
    AwaitsItsCall(t);
    BusyGoesOn(t, TimedOut);
  }

  lemma StillAsked(s: State, between: seq<Event>, w: Worker)
    requires Step(s, Advance).net.log == s.net.log + [CloseWorker(Actor.Shutdown, w)]
    requires Busy(Run(Step(s, Advance), between).life.phase)
    requires PrimaryCalls(Run(Step(s, Advance), between).net.log) == PrimaryCalls(Step(s, Advance).net.log)
    ensures var t := Run(Step(s, Advance), between);
            && t.life.phase.WorkerLoop? && t.life.phase.since == s.net.clock && t.cfg == s.cfg
            && EndsWith(PrimaryCalls(t.net.log), CloseWorker(Actor.Shutdown, w))
  {
    WorkerAsked(s, w);
    StillWaits(Step(s, Advance), between);
    PrimaryAppend(s.net.log, CloseWorker(Actor.Shutdown, w));
  }

  /** The drain timer forces a worker exactly when its full budget has passed since its close was
      called, whatever ran in between; before that it does nothing at all. */
  lemma TimerForcesIff(cfg: Config, before: seq<Event>, between: seq<Event>, w: Worker)
    requires var s := Run(Boot(cfg), before);
             && Step(s, Advance).net.log == s.net.log + [CloseWorker(Actor.Shutdown, w)]
             && Busy(Run(Step(s, Advance), between).life.phase)
             && PrimaryCalls(Run(Step(s, Advance), between).net.log) == PrimaryCalls(Step(s, Advance).net.log)
    ensures var asked := Run(Boot(cfg), before).net.clock;
            var t := Run(Boot(cfg), before + ([Advance] + between));
            if t.net.clock >= asked + cfg.drainTimeout
            then Step(t, Settle(TimedOut)).net.log == t.net.log + [ForceWorker(w)]
            else Step(t, Settle(TimedOut)) == t
  {
    var s := Run(Boot(cfg), before);
    RunAppend(Boot(cfg), before, [Advance] + between);
    RunCons(s, Advance, between);
    ReachableIsProper(cfg, before + ([Advance] + between));
    StillAsked(s, between, w);
    TimerEnds(Run(Boot(cfg), before + ([Advance] + between)), w);
  }
}
