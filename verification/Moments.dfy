/** What the shutdown copies or goes over, told from the registries at the moment it does. A moment
    is the last state of a run before the hooks enter a later phase; no field of the lifecycle
    service is needed to say what the registries held then. */
module Moments {
  import opened JsMaps
  import opened Networks
  import opened WorkerRegistries
  import opened QueueLifecycles
  import opened Runtimes

  /** The last state of the run from `s` whose phase has at most rank `r`. */
  function LastAt(s: State, es: seq<Event>, r: nat): State
    decreases |es|
  {
    if es == [] || Rank(Step(s, es[0]).life.phase) > r then s else LastAt(Step(s, es[0]), es[1..], r)
  }

  /** When `onModuleDestroy` was called. */
  function AtDestroy(cfg: Config, es: seq<Event>): State {
    LastAt(Boot(cfg), es, Rank(Running))
  }

  /** When the last worker close had settled. */
  function AtWorkersDone(cfg: Config, es: seq<Event>): State {
    LastAt(Boot(cfg), es, Rank(WorkerLoop(0, false, 0)))
  }

  /** When the loop over the queue-events found nothing more to close. */
  function AtEventsDone(cfg: Config, es: seq<Event>): State {
    LastAt(Boot(cfg), es, Rank(EventsLoop(0, false)))
  }

  /** When the tracked connections were copied. */
  function AtCopy(cfg: Config, es: seq<Event>): State {
    LastAt(Boot(cfg), es, Rank(DupesStart))
  }

  /** When the drain found nothing more to drain, or was skipped. */
  function AtDrained(cfg: Config, es: seq<Event>): State {
    LastAt(Boot(cfg), es, Rank(DrainLoop(0, false)))
  }

  /** When `closeAll` found nothing more to close, and emptied the cache. */
  function AtCleared(cfg: Config, es: seq<Event>): State {
    LastAt(Boot(cfg), es, Rank(QueueLoop(0, false)))
  }

  /** The workers registered when `onModuleDestroy` was called, in registry order. */
  function WorkersThen(cfg: Config, es: seq<Event>): seq<Worker> {
    WorkersOf(Values(AtDestroy(cfg, es).workers.entries))
  }

  /** The connections tracked when they were copied: the workers' first, then the queue-events'. */
  function ConnectionsThen(cfg: Config, es: seq<Event>): seq<nat> {
    ConnectionsOf(Values(AtCopy(cfg, es).workers.entries)) + Values(AtCopy(cfg, es).events.connections)
  }

  /** A moment is a state of the run, and the next event leaves its phase. */
  lemma {:induction false} LastIsReached(s: State, es: seq<Event>, r: nat) returns (n: nat)
    requires Rank(s.life.phase) <= r
    ensures n <= |es| && LastAt(s, es, r) == Run(s, es[..n]) && Rank(LastAt(s, es, r).life.phase) <= r
    ensures n < |es| ==> Rank(Run(s, es[..n + 1]).life.phase) > r
    ensures n == |es| ==> LastAt(s, es, r) == Run(s, es)
    decreases |es|
  {
    n := 0;
    if es != [] {
      var s' := Step(s, es[0]);
      if Rank(s'.life.phase) > r {
        RunCons(s, es[0], []);
        assert es[..1] == [es[0]];
      } else {
        var k := LastIsReached(s', es[1..], r);
        n := k + 1;
        assert es[..n][1..] == es[1..][..k];
        assert n < |es| ==> es[..n + 1][1..] == es[1..][..k + 1];
      }
    }
  }

  /** A run that stops at the moment it was cut at. */
  lemma {:induction false} LastOfCut(s: State, before: seq<Event>, e: Event, after: seq<Event>, r: nat)
    requires Rank(Run(s, before).life.phase) <= r < Rank(Step(Run(s, before), e).life.phase)
    ensures LastAt(s, before + ([e] + after), r) == Run(s, before)
    decreases |before|
  {
    var es := before + ([e] + after);
    if before == [] {
      assert es == [e] + after;
    } else {
      assert es[1..] == before[1..] + ([e] + after);
      RunPhases(Step(s, before[0]), before[1..]);
      LastOfCut(Step(s, before[0]), before[1..], e, after, r);
    }
  }

  lemma {:induction false} RunPhases(s: State, es: seq<Event>)
    ensures Rank(s.life.phase) <= Rank(Run(s, es).life.phase)
    decreases |es|
  {
    if es != [] {
      PhasesAdvance(s, es[0]);
      RunPhases(Step(s, es[0]), es[1..]);
    }
  }

  /** A field that is written when a phase is left, and never afterwards, holds what was copied at
      that moment. */
  lemma {:induction false} FieldStays<T(!new)>(field: State -> T, s: State, es: seq<Event>, r: nat)
    requires Rank(s.life.phase) > r
    requires forall t: State, e: Event | Rank(t.life.phase) > r :: field(Step(t, e)) == field(t)
    ensures field(Run(s, es)) == field(s)
    decreases |es|
  {
    if es != [] {
      PhasesAdvance(s, es[0]);
      FieldStays(field, Step(s, es[0]), es[1..], r);
    }
  }

  lemma {:induction false} FieldIsCopy<T(!new)>(inv: State -> bool, field: State -> T, copy: State -> T,
                                                s: State, es: seq<Event>, r: nat)
    requires inv(s) && forall t: State, e: Event | inv(t) :: inv(Step(t, e))
    requires forall t: State, e: Event | Rank(t.life.phase) > r :: field(Step(t, e)) == field(t)
    requires forall t: State, e: Event | inv(t) && Rank(t.life.phase) <= r < Rank(Step(t, e).life.phase) ::
               field(Step(t, e)) == copy(t)
    requires Rank(s.life.phase) <= r < Rank(Run(s, es).life.phase)
    ensures field(Run(s, es)) == copy(LastAt(s, es, r))
    decreases |es|
  {
    var s' := Step(s, es[0]);
    if Rank(s'.life.phase) > r {
      FieldStays(field, s', es[1..], r);
    } else {
      FieldIsCopy(inv, field, copy, s', es[1..], r);
    }
  }

  lemma SnapshotStep(t: State, e: Event)
    ensures Rank(t.life.phase) > 0 ==> Step(t, e).life.snapshot == t.life.snapshot
    ensures Rank(t.life.phase) == 0 < Rank(Step(t, e).life.phase) ==>
              Step(t, e).life.snapshot == WorkersOf(Values(t.workers.entries))
    ensures Rank(t.life.phase) > 0 ==> Step(t, e).life.startedAt == t.life.startedAt
    ensures Rank(t.life.phase) == 0 < Rank(Step(t, e).life.phase) ==>
              Step(t, e).life.startedAt.Some? && Step(t, e).life.startedAt.value == t.net.clock
  {
  }

  /** The shutdown goes over the workers the registry held when `onModuleDestroy` was called. */
  lemma SnapshotIs(cfg: Config, es: seq<Event>)
    requires Rank(Run(Boot(cfg), es).life.phase) > 0
    ensures Run(Boot(cfg), es).life.snapshot == WorkersThen(cfg, es)
  {
    forall t: State, e: Event
      ensures Rank(t.life.phase) > 0 ==> Step(t, e).life.snapshot == t.life.snapshot
      ensures Rank(t.life.phase) == 0 < Rank(Step(t, e).life.phase) ==>
                Step(t, e).life.snapshot == WorkersOf(Values(t.workers.entries))
    {
      SnapshotStep(t, e);
    }
    FieldIsCopy((t: State) => true, (t: State) => t.life.snapshot,
                (t: State) => WorkersOf(Values(t.workers.entries)), Boot(cfg), es, 0);
  }

  lemma StartIs(cfg: Config, es: seq<Event>)
    requires Rank(Run(Boot(cfg), es).life.phase) > 0
    ensures Run(Boot(cfg), es).life.startedAt.Some?
    ensures Run(Boot(cfg), es).life.startedAt.value == AtDestroy(cfg, es).net.clock
  {
    forall t: State, e: Event
      ensures Rank(t.life.phase) > 0 ==> Step(t, e).life.startedAt == t.life.startedAt
      ensures Rank(t.life.phase) == 0 < Rank(Step(t, e).life.phase) ==>
                Step(t, e).life.startedAt.Some? && Step(t, e).life.startedAt.value == t.net.clock
    {
      SnapshotStep(t, e);
    }
    var field := (t: State) => if t.life.startedAt.Some? then t.life.startedAt.value as int else -1;
    FieldIsCopy((t: State) => true, field, (t: State) => t.net.clock as int, Boot(cfg), es, 0);
  }

  lemma DrainTimeStep(t: State, e: Event)
    ensures Rank(t.life.phase) > 1 ==> Step(t, e).life.history.drainedAt == t.life.history.drainedAt
    ensures Rank(t.life.phase) <= 1 < Rank(Step(t, e).life.phase) ==>
              Step(t, e).life.history.drainedAt == t.net.clock
  {
  }

  lemma DrainTimeIs(cfg: Config, es: seq<Event>)
    requires Rank(Run(Boot(cfg), es).life.phase) > 1
    ensures Run(Boot(cfg), es).life.history.drainedAt == AtWorkersDone(cfg, es).net.clock
  {
    forall t: State, e: Event
      ensures Rank(t.life.phase) > 1 ==> Step(t, e).life.history.drainedAt == t.life.history.drainedAt
      ensures Rank(t.life.phase) <= 1 < Rank(Step(t, e).life.phase) ==>
                Step(t, e).life.history.drainedAt == t.net.clock
    {
      DrainTimeStep(t, e);
    }
    FieldIsCopy((t: State) => true, (t: State) => t.life.history.drainedAt, (t: State) => t.net.clock,
                Boot(cfg), es, 1);
  }

  lemma EventsStep(t: State, e: Event)
    ensures Rank(t.life.phase) > 2 ==> Step(t, e).life.history.events == t.life.history.events
    ensures Rank(t.life.phase) <= 2 < Rank(Step(t, e).life.phase) ==>
              Step(t, e).life.history.events == Values(t.events.events)
  {
  }

  lemma EventsAre(cfg: Config, es: seq<Event>)
    requires Rank(Run(Boot(cfg), es).life.phase) > 2
    ensures Run(Boot(cfg), es).life.history.events == Values(AtEventsDone(cfg, es).events.events)
  {
    forall t: State, e: Event
      ensures Rank(t.life.phase) > 2 ==> Step(t, e).life.history.events == t.life.history.events
      ensures Rank(t.life.phase) <= 2 < Rank(Step(t, e).life.phase) ==>
                Step(t, e).life.history.events == Values(t.events.events)
    {
      EventsStep(t, e);
    }
    FieldIsCopy((t: State) => true, (t: State) => t.life.history.events, (t: State) => Values(t.events.events),
                Boot(cfg), es, 2);
  }

  function Tracks(t: State): (seq<nat>, nat) {
    (ConnectionsOf(Values(t.workers.entries)) + Values(t.events.connections), t.net.issued)
  }

  function Copied(t: State): (seq<nat>, nat) {
    (t.life.dupes, t.life.history.issuedAtDupes)
  }

  lemma CopyStep(t: State, e: Event)
    ensures Rank(t.life.phase) > 3 ==> Copied(Step(t, e)) == Copied(t)
    ensures Rank(t.life.phase) <= 3 < Rank(Step(t, e).life.phase) ==> Copied(Step(t, e)) == Tracks(t)
  {
  }

  /** The connections it quits are those tracked when it copied them. */
  lemma CopyIs(cfg: Config, es: seq<Event>)
    requires Rank(Run(Boot(cfg), es).life.phase) > 3
    ensures Run(Boot(cfg), es).life.dupes == ConnectionsThen(cfg, es)
    ensures Run(Boot(cfg), es).life.history.issuedAtDupes == AtCopy(cfg, es).net.issued
  {
    forall t: State, e: Event
      ensures Rank(t.life.phase) > 3 ==> Copied(Step(t, e)) == Copied(t)
      ensures Rank(t.life.phase) <= 3 < Rank(Step(t, e).life.phase) ==> Copied(Step(t, e)) == Tracks(t)
    {
      CopyStep(t, e);
    }
    FieldIsCopy((t: State) => true, (t: State) => Copied(t), (t: State) => Tracks(t), Boot(cfg), es, 3);
  }

  /** The drain loop runs exactly when the option asks for it. */
  predicate DrainsIfAsked(t: State) {
    && (t.life.phase.DrainLoop? ==> t.cfg.drainOnShutdown)
    && (Rank(t.life.phase) < 7 ==> t.life.history.drained == [])
  }

  function DueDrains(t: State): seq<Queue> {
    if t.cfg.drainOnShutdown then Values(t.cache.queues) else []
  }

  lemma DrainStep(t: State, e: Event)
    ensures DrainsIfAsked(t) ==> DrainsIfAsked(Step(t, e))
    ensures Rank(t.life.phase) > 6 ==> Step(t, e).life.history.drained == t.life.history.drained
    ensures DrainsIfAsked(t) && Rank(t.life.phase) <= 6 < Rank(Step(t, e).life.phase) ==>
              Step(t, e).life.history.drained == DueDrains(t)
  {
  }

  lemma DrainsAre(cfg: Config, es: seq<Event>)
    requires Rank(Run(Boot(cfg), es).life.phase) > 6
    ensures Run(Boot(cfg), es).life.history.drained == DueDrains(AtDrained(cfg, es))
  {
    forall t: State, e: Event
      ensures DrainsIfAsked(t) ==> DrainsIfAsked(Step(t, e))
      ensures Rank(t.life.phase) > 6 ==> Step(t, e).life.history.drained == t.life.history.drained
      ensures DrainsIfAsked(t) && Rank(t.life.phase) <= 6 < Rank(Step(t, e).life.phase) ==>
                Step(t, e).life.history.drained == DueDrains(t)
    {
      DrainStep(t, e);
    }
    FieldIsCopy((t: State) => DrainsIfAsked(t), (t: State) => t.life.history.drained, (t: State) => DueDrains(t),
                Boot(cfg), es, 6);
  }

  function Emptied(t: State): (seq<Queue>, nat) {
    (t.life.history.queues, t.life.history.createdAtClear)
  }

  lemma ClearedStep(t: State, e: Event)
    ensures Rank(t.life.phase) > 8 ==> Emptied(Step(t, e)) == Emptied(t)
    ensures Rank(t.life.phase) <= 8 < Rank(Step(t, e).life.phase) ==>
              Emptied(Step(t, e)) == (Values(t.cache.queues), t.cache.created)
  {
  }

  lemma ClearedAre(cfg: Config, es: seq<Event>)
    requires Rank(Run(Boot(cfg), es).life.phase) > 8
    ensures Run(Boot(cfg), es).life.history.queues == Values(AtCleared(cfg, es).cache.queues)
    ensures Run(Boot(cfg), es).life.history.createdAtClear == AtCleared(cfg, es).cache.created
  {
    forall t: State, e: Event
      ensures Rank(t.life.phase) > 8 ==> Emptied(Step(t, e)) == Emptied(t)
      ensures Rank(t.life.phase) <= 8 < Rank(Step(t, e).life.phase) ==>
                Emptied(Step(t, e)) == (Values(t.cache.queues), t.cache.created)
    {
      ClearedStep(t, e);
    }
    FieldIsCopy((t: State) => true, (t: State) => Emptied(t), (t: State) => (Values(t.cache.queues), t.cache.created),
                Boot(cfg), es, 8);
  }

  // ---- How the worker closes ended ----

  /** The event ends the pending close of a worker; the drain timer cannot before its budget. */
  predicate EndsWorkerClose(s: State, e: Event) {
    && e.Settle? && s.life.phase.WorkerLoop? && s.life.phase.busy
    && (e.outcome == TimedOut ==> s.net.clock >= s.life.phase.since + s.cfg.drainTimeout)
  }

  function EndingOf(s: State, e: Event): seq<Outcome> {
    if EndsWorkerClose(s, e) then [e.outcome] else []
  }

  /** How the worker closes of a run ended, in order. */
  function WorkerOutcomes(s: State, es: seq<Event>): seq<Outcome>
    decreases |es|
  {
    if es == [] then [] else EndingOf(s, es[0]) + WorkerOutcomes(Step(s, es[0]), es[1..])
  }

  lemma OutcomeStep(s: State, e: Event)
    requires InBounds(s)
    ensures Step(s, e).life.history.outcomes == s.life.history.outcomes + EndingOf(s, e)
  {
  }

  lemma {:induction false} OutcomesAre(s: State, es: seq<Event>)
    requires Sound(s)
    ensures Run(s, es).life.history.outcomes == s.life.history.outcomes + WorkerOutcomes(s, es)
    decreases |es|
  {
    if es != [] {
      OutcomeStep(s, es[0]);
      StepKeepsSound(s, es[0]);
      OutcomesAre(Step(s, es[0]), es[1..]);
      Regroup(s.life.history.outcomes, EndingOf(s, es[0]), WorkerOutcomes(Step(s, es[0]), es[1..]));
    }
  }

  lemma Regroup<T>(x: seq<T>, y: seq<T>, z: seq<T>)
    ensures x + y + z == x + (y + z)
  {
  }

  function OutcomesOf(cfg: Config, es: seq<Event>): seq<Outcome> {
    WorkerOutcomes(Boot(cfg), es)
  }
}
