/** How far a shutdown hook is from its end, and a hook driven there turn by turn while other calls
    run in between. */
module HookCompletion {
  import opened JsMaps
  import opened QueueLifecycles
  import opened Runtimes

  /** The turns a loop over `n` elements still takes: two for each and one to leave. */
  function Turns(n: nat, i: nat, busy: bool): int {
    2 * (n - i) + 1 - if busy then 1 else 0
  }

  /** An upper bound on the turns the running hook still takes. A tracked connection per slot is
      the most the copy can hold. */
  function Remaining(s: State): int {
    var dupes := Turns(|s.workers.entries| + |s.events.connections|, 0, false);
    var queues := Turns(|s.cache.queues|, 0, false) + 2;
    match s.life.phase
    case WorkerLoop(i, busy, _) => Turns(|s.life.snapshot|, i, busy) + Turns(|s.events.events|, 0, false) + 1 + dupes
    case EventsLoop(i, busy) => Turns(|s.events.events|, i, busy) + 1 + dupes
    case DupesStart => 1 + dupes
    case DupeLoop(i, busy) => Turns(|s.life.dupes|, i, busy)
    case DrainLoop(i, busy) => Turns(|s.cache.queues|, i, busy) + 2 + queues
    case Producer(busy) => (if busy then 1 else 2) + queues
    case QueueLoop(i, busy) => Turns(|s.cache.queues|, i, busy) + 2
    case Role(busy) => if busy then 1 else 2
    case _ => 0
  }

  /** No hook is running. */
  predicate AtRest(p: Phase) {
    p.Running? || p.Destroyed? || p.Done?
  }

  predicate Turn(e: Event) {
    e.Advance? || e.Settle?
  }

  lemma {:induction false} FewValues<V>(m: JsMap<string, V>)
    ensures |Values(m)| <= |m|
  {
    if m != [] {
      FewValues(m[..|m| - 1]);
    }
  }

  lemma AdvanceCounts(s: State)
    requires InBounds(s) && AdvanceStep(s) != s
    ensures 0 <= Remaining(AdvanceStep(s)) < Remaining(s)
  {
    if s.life.phase.DupesStart? {
      CopyCounts(s);
    } else {
      assert !Busy(s.life.phase);
    }
  }

  lemma CopyCounts(s: State)
    requires s.life.phase.DupesStart?
    ensures 0 <= Remaining(AdvanceStep(s)) < Remaining(s)
  {
    FewValues(s.workers.entries);
    FewValues(s.events.connections);
  }

  lemma SettleCounts(s: State, o: Outcome)
    requires InBounds(s) && SettleStep(s, o) != s
    ensures 0 <= Remaining(SettleStep(s, o)) < Remaining(s)
  {
    assert Busy(s.life.phase);
  }

  /** The records of the maps the running hook has still to go over or to copy. */
  function Ahead(s: State): nat {
    var rank := Rank(s.life.phase);
    if 1 <= rank <= 3 then |s.workers.entries| + |s.events.events|
    else if 6 <= rank <= 8 then |s.cache.queues|
    else 0
  }

  /** A call from outside the shutdown adds at most four turns for each record it puts ahead. */
  lemma CallCounts(s: State, e: Event)
    requires Sound(s) && !LifecycleEvent(e)
    ensures Ahead(s) <= Ahead(Step(s, e)) && Step(s, e).life == s.life
    ensures Remaining(Step(s, e)) <= Remaining(s) + 4 * (Ahead(Step(s, e)) - Ahead(s))
  {
  }

  /** Whatever the state, the running hook can move: its loop head can turn, or the call it waits
      for can end, by either outcome, and a worker close by the timer once its budget is spent. */
  lemma HookCanMove(s: State, o: Outcome)
    requires Sound(s) && !AtRest(s.life.phase)
    ensures !Busy(s.life.phase) ==> Step(s, Advance) != s
    ensures Busy(s.life.phase) && o != TimedOut ==> Step(s, Settle(o)) != s
    ensures s.life.phase.WorkerLoop? && Busy(s.life.phase) && s.net.clock >= s.life.phase.since + s.cfg.drainTimeout
            ==> Step(s, Settle(TimedOut)) != s
  {
  }

  function Moves(s: State, es: seq<Event>): nat
    decreases |es|
  {
    if es == [] then 0
    else (if Turn(es[0]) && Step(s, es[0]) != s then 1 else 0) + Moves(Step(s, es[0]), es[1..])
  }

  ghost predicate NoHookBegins(es: seq<Event>) {
    forall i :: 0 <= i < |es| ==> !es[i].ModuleDestroy? && !es[i].ApplicationShutdown?
  }

  /** The records the calls of a run put ahead of the running hook. Others do not count: a worker
      registered while the queues are closed, say, or a queue created while workers are. */
  function PutAhead(s: State, es: seq<Event>): int
    decreases |es|
  {
    if es == [] then 0
    else
      var now := if LifecycleEvent(es[0]) then 0 else Ahead(Step(s, es[0])) - Ahead(s);
      now + PutAhead(Step(s, es[0]), es[1..])
  }

  /** A hook takes at most as many turns as it had left, plus four for each record put ahead of it
      while it ran, whatever the outcomes and whatever is called meanwhile. */
  lemma {:induction false} HookIsBounded(s: State, es: seq<Event>)
    requires Sound(s) && NoHookBegins(es)
    ensures Moves(s, es) + Remaining(Run(s, es)) <= Remaining(s) + 4 * PutAhead(s, es)
    decreases |es|
  {
    if es != [] {
      var e := es[0];
      StepKeepsSound(s, e);
      if Turn(e) {
        TurnCounts(s, e);
      } else {
        CallCounts(s, e);
      }
      HookIsBounded(Step(s, e), es[1..]);
    }
  }

  lemma TurnCounts(s: State, e: Event)
    requires Sound(s) && Turn(e)
    ensures Step(s, e) != s ==> Remaining(Step(s, e)) < Remaining(s)
  {
    if Step(s, e) != s {
      if e.Advance? { AdvanceCounts(s); } else { SettleCounts(s, e.outcome); }
    }
  }

  lemma RemainingIsNat(s: State)
    requires Sound(s)
    ensures Remaining(s) >= 0 && (Remaining(s) == 0 <==> AtRest(s.life.phase))
  {
  }

  // ---- A hook driven to its end ----

  /** How the environment treats a hook: what is called before its `n`-th turn, and how the call it
      then waits for ends. */
  datatype Schedule = Schedule(calls: nat -> seq<Event>, ends: nat -> Outcome)

  ghost predicate OnlyCalls(es: seq<Event>) {
    forall i :: 0 <= i < |es| ==> !LifecycleEvent(es[i])
  }

  ghost predicate Polite(sch: Schedule) {
    forall n :: OnlyCalls(sch.calls(n))
  }

  /** The time left until the drain timer of the worker waited for fires. */
  function Wait(s: State): nat {
    if s.life.phase.WorkerLoop? && s.net.clock < s.life.phase.since + s.cfg.drainTimeout
    then s.life.phase.since + s.cfg.drainTimeout - s.net.clock
    else 0
  }

  /** One turn: the loop head goes on, or the call waited for ends. Only a worker close can run out
      of its budget, which takes the time until its timer fires. */
  function TurnOf(s: State, o: Outcome): seq<Event> {
    if !Busy(s.life.phase) then [Advance]
    else if o != TimedOut then [Settle(o)]
    else if s.life.phase.WorkerLoop? then [Tick(Wait(s)), Settle(TimedOut)]
    else [Settle(Rejected)]
  }

  /** The calls and the turn number `n`; nothing once the hook has returned. */
  function RoundOf(s: State, sch: Schedule, n: nat): seq<Event> {
    if AtRest(s.life.phase) then []
    else sch.calls(n) + TurnOf(Run(s, sch.calls(n)), sch.ends(n))
  }

  function Round(s: State, sch: Schedule, n: nat): State {
    Run(s, RoundOf(s, sch, n))
  }

  function Rounds(sch: Schedule): (State, nat) -> State {
    (s: State, n: nat) => Round(s, sch, n)
  }

  function Iterated<S>(f: (S, nat) -> S, s: S, n: nat): S {
    if n == 0 then s else f(Iterated(f, s, n - 1), n - 1)
  }

  /** The state after `n` rounds. */
  function Driven(s: State, sch: Schedule, n: nat): State {
    Iterated(Rounds(sch), s, n)
  }

  lemma {:induction false} IteratedKeeps<S(!new)>(f: (S, nat) -> S, inv: (S, nat) -> bool, s: S, n: nat)
    requires inv(s, 0) && forall t, k: nat :: inv(t, k) ==> inv(f(t, k), k + 1)
    ensures inv(Iterated(f, s, n), n)
  {
    if n > 0 {
      IteratedKeeps(f, inv, s, n - 1);
    }
  }

  /** Rounds are events of the machine: a driven hook is one of its runs. */
  lemma DrivenIsARun(s: State, sch: Schedule, n: nat)
    ensures exists es :: Driven(s, sch, n) == Run(s, es)
  {
    var inv := (t: State, k: nat) => exists es :: t == Run(s, es);
    assert s == Run(s, []);
    forall t, k: nat | inv(t, k) ensures inv(Rounds(sch)(t, k), k + 1) {
      var es :| t == Run(s, es);
      RunAppend(s, es, RoundOf(t, sch, k));
    }
    IteratedKeeps(Rounds(sch), inv, s, n);
  }

  lemma {:induction false} CallsLeaveLife(s: State, es: seq<Event>)
    requires Sound(s) && OnlyCalls(es)
    ensures Sound(Run(s, es)) && Run(s, es).life == s.life
    decreases |es|
  {
    if es != [] {
      StepKeepsSound(s, es[0]);
      CallCounts(s, es[0]);
      CallsLeaveLife(Step(s, es[0]), es[1..]);
    }
  }

  lemma WaitReachesTimer(s: State)
    requires s.life.phase.WorkerLoop? && Busy(s.life.phase)
    ensures var t := Step(s, Tick(Wait(s)));
            t.life == s.life && t.cfg == s.cfg && t.net.clock >= s.life.phase.since + s.cfg.drainTimeout
    ensures Remaining(Step(s, Tick(Wait(s)))) == Remaining(s)
  {
  }

  /** A turn brings the hook nearer its end, however the call it waits for ends. */
  lemma TurnBringsNearer(s: State, o: Outcome)
    requires Sound(s) && !AtRest(s.life.phase)
    ensures var t := Run(s, TurnOf(s, o));
            Sound(t) && Remaining(t) < Remaining(s)
  {
    if Busy(s.life.phase) && o == TimedOut && s.life.phase.WorkerLoop? {
      var t := Step(s, Tick(Wait(s)));
      WaitReachesTimer(s);
      StepKeepsSound(s, Tick(Wait(s)));
      RunCons(s, Tick(Wait(s)), [Settle(TimedOut)]);
      SettleBringsNearer(t, TimedOut);
    } else if Busy(s.life.phase) {
      SettleBringsNearer(s, if o == TimedOut then Rejected else o);
    } else {
      HookCanMove(s, o);
      StepKeepsSound(s, Advance);
      TurnCounts(s, Advance);
      RunCons(s, Advance, []);
    }
  }

  lemma SettleBringsNearer(s: State, o: Outcome)
    requires Sound(s) && Busy(s.life.phase)
    requires o == TimedOut ==> s.life.phase.WorkerLoop? && s.net.clock >= s.life.phase.since + s.cfg.drainTimeout
    ensures var t := Run(s, [Settle(o)]);
            Sound(t) && Remaining(t) < Remaining(s)
  {
    HookCanMove(s, o);
    StepKeepsSound(s, Settle(o));
    TurnCounts(s, Settle(o));
    RunCons(s, Settle(o), []);
  }

  /** With nothing called between its turns, a hook returns within the turns it had left. */
  lemma QuietHooksComplete(cfg: Config, before: seq<Event>, sch: Schedule, n: nat)
    requires forall k :: sch.calls(k) == []
    requires n >= Remaining(Run(Boot(cfg), before))
    ensures AtRest(Driven(Run(Boot(cfg), before), sch, n).life.phase)
  {
    var s := Run(Boot(cfg), before);
    BootSound(cfg);
    RunKeepsSound(Boot(cfg), before);
    var inv := (t: State, k: nat) => Sound(t) && (AtRest(t.life.phase) || k + Remaining(t) <= Remaining(s));
    forall t, k: nat | inv(t, k) ensures inv(Rounds(sch)(t, k), k + 1) {
      QuietRound(t, sch, k);
    }
    IteratedKeeps(Rounds(sch), inv, s, n);
    RemainingIsNat(Driven(s, sch, n));
  }

  lemma QuietRound(t: State, sch: Schedule, n: nat)
    requires Sound(t) && sch.calls(n) == []
    ensures AtRest(t.life.phase) ==> Round(t, sch, n) == t
    ensures !AtRest(t.life.phase) ==> Sound(Round(t, sch, n)) && Remaining(Round(t, sch, n)) < Remaining(t)
  {
    if !AtRest(t.life.phase) {
      TurnBringsNearer(t, sch.ends(n));
      assert [] + TurnOf(t, sch.ends(n)) == TurnOf(t, sch.ends(n));
    }
  }

  /** The hook running in `s` returns. */
  ghost predicate Completes(s: State, sch: Schedule) {
    exists n: nat :: AtRest(Driven(s, sch, n).life.phase)
  }
}
