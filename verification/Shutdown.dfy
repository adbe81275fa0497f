/** The guarantees of the shutdown, over every run from boot: the order of its calls, what it
    leaves open until when, how long it waits for workers, and whom it forces. */
module Shutdown {
  import opened JsMaps
  import opened Networks
  import opened WorkerRegistries
  import opened ConnectionResolvers
  import opened QueueServices
  import opened QueueLifecycles
  import opened Runtimes
  import opened TeardownOrder
  import opened TeardownKinds
  import opened Moments

  // ---- Which effects may have happened by which phase ----

  /** The earliest phase an effect belongs to. */
  function Earliest(e: Effect): nat {
    match e
    case DrainQueue(_) => Rank(DrainLoop(0, false))
    case CloseProducer => Rank(Producer(false))
    case CloseQueue(_) => Rank(QueueLoop(0, false))
    case CloseEvents(_) => Rank(EventsLoop(0, false))
    case Quit(actor, c) =>
      if c == ROLE then Rank(Role(false)) else if actor == Shutdown then Rank(DupeLoop(0, false)) else 0
    case Disconnect(actor, c) =>
      if c == ROLE then Rank(Done) else if actor == Shutdown then Rank(DupeLoop(0, false)) else 0
    case _ => 0
  }

  predicate OnRole(e: Effect) {
    (e.Quit? || e.Disconnect?) && e.connection == ROLE
  }

  /** The shutdown quits or disconnects a duplicate. */
  predicate OnDuplicate(e: Effect) {
    (e.Quit? || e.Disconnect?) && e.actor == Actor.Shutdown && e.connection != ROLE
  }

  ghost predicate Timely(s: State, e: Effect) {
    && Earliest(e) <= Rank(s.life.phase)
    && (OnRole(e) ==> s.cfg.mode == ModeB && e.actor == Shutdown && (e.Quit? ==> s.life.phase != Role(false)))
    && (e == Disconnect(Shutdown, ROLE) ==> s.life.history.roleRejected)
    && (e.CloseWorker? && e.actor == Actor.Shutdown ==> e.worker in s.life.snapshot)
    && (e.ForceWorker? ==> e.forced in s.life.snapshot)
    && (OnDuplicate(e) ==> e.connection < s.life.history.issuedAtDupes && e.connection in s.life.dupes)
  }

  ghost predicate Staged(s: State) {
    && (forall k :: 0 <= k < |s.net.log| ==> Timely(s, s.net.log[k]))
    && (ROLE in s.net.released <==> s.life.phase == Done && s.cfg.mode == ModeB)
    && (s.life.history.roleRejected ==> s.life.phase == Done)
    && (s.life.phase == Role(true) ==> s.cfg.mode == ModeB)
    && CopyIsOld(s)
  }

  /** The shutdown copied only connections that were open by then. */
  ghost predicate CopyIsOld(s: State) {
    Rank(s.life.phase) >= 4 ==>
      forall i :: 0 <= i < |s.life.dupes| ==> s.life.dupes[i] < s.life.history.issuedAtDupes
  }

  lemma CopyStaysOld(s: State, e: Event)
    requires Sound(s) && CopyIsOld(s)
    ensures CopyIsOld(Step(s, e))
  {
    StepKeepsDupes(s, e);
    if e.Advance? && s.life.phase.DupesStart? {
      var s' := Step(s, e);
      forall i | 0 <= i < |s'.life.dupes| ensures s'.life.dupes[i] < s'.life.history.issuedAtDupes {
        assert OwnDuplicate(s', s'.life.dupes[i]);
      }
    }
  }

  /** A step adds at most one effect. */
  lemma StepEmits(s: State, e: Event)
    ensures Step(s, e).cfg == s.cfg
    ensures var log, log' := s.net.log, Step(s, e).net.log;
            log' == log || (|log'| == |log| + 1 && log <= log')
  {
  }

  lemma StepStages(s: State, e: Event)
    requires Sound(s) && Staged(s)
    ensures Staged(Step(s, e))
  {
    var s' := Step(s, e);
    StepEmits(s, e);
    StepKeepsCache(s, e);
    NewEffectTimely(s, e);
    RoleReleased(s, e);
    CopyStaysOld(s, e);
    forall k | 0 <= k < |s'.net.log| ensures Timely(s', s'.net.log[k]) {
      if k < |s.net.log| {
        assert s'.net.log[k] == s.net.log[k];
        OldEffectTimely(s, e, s.net.log[k]);
      }
    }
  }

  lemma OldEffectTimely(s: State, e: Event, earlier: Effect)
    requires Sound(s) && Staged(s) && Timely(s, earlier) && Rank(s.life.phase) <= Rank(Step(s, e).life.phase)
    ensures Timely(Step(s, e), earlier)
  {
  }

  lemma NewEffectTimely(s: State, e: Event)
    requires Sound(s) && Staged(s)
    ensures |Step(s, e).net.log| > |s.net.log| ==> Timely(Step(s, e), Step(s, e).net.log[|s.net.log|])
  {
    StepEmits(s, e);
    match e
    case Advance => AdvanceIsTimely(s);
    case Settle(o) => SettleIsTimely(s, o);
    case Resume(id, _) =>
      if id in s.workers.calls {
        assert EntryOk(s, s.workers.calls[id].entry);
      }
    case _ =>
  }

  lemma AdvanceIsTimely(s: State)
    requires Sound(s) && Staged(s)
    ensures |AdvanceStep(s).net.log| > |s.net.log| ==> Timely(AdvanceStep(s), AdvanceStep(s).net.log[|s.net.log|])
  {
  }

  lemma SettleIsTimely(s: State, o: Outcome)
    requires Sound(s) && Staged(s)
    ensures |SettleStep(s, o).net.log| > |s.net.log| ==> Timely(SettleStep(s, o), SettleStep(s, o).net.log[|s.net.log|])
  {
  }

  lemma RoleReleased(s: State, e: Event)
    requires Sound(s) && Staged(s)
    ensures ROLE in Step(s, e).net.released <==> Step(s, e).life.phase == Done && s.cfg.mode == ModeB
    ensures Step(s, e).life.history.roleRejected ==> Step(s, e).life.phase == Done
    ensures Step(s, e).life.phase == Role(true) ==> s.cfg.mode == ModeB
  {
    if e.Resume? && e.id in s.workers.calls {
      assert EntryOk(s, s.workers.calls[e.id].entry);
    }
  }

  // ---- Workers: who is forced, and how long the loop waits ----

  function Forces(log: seq<Effect>): seq<Worker> {
    if log == [] then []
    else
      var last := log[|log| - 1];
      Forces(log[..|log| - 1]) + if last.ForceWorker? then [last.forced] else []
  }

  lemma ForcesAppend(log: seq<Effect>, e: Effect)
    ensures Forces(log + [e]) == Forces(log) + if e.ForceWorker? then [e.forced] else []
  {
    assert (log + [e])[..|log|] == log;
  }

  /** The first `n` workers whose graceful close rejected or lost the race to the timer. */
  function Unresolved(workers: seq<Worker>, outcomes: seq<Outcome>, n: nat): seq<Worker>
    requires n <= |workers| && n <= |outcomes|
  {
    if n == 0 then []
    else Unresolved(workers, outcomes, n - 1) + if outcomes[n - 1] != Resolved then [workers[n - 1]] else []
  }

  lemma {:induction false} UnresolvedGrows(workers: seq<Worker>, outcomes: seq<Outcome>, o: Outcome, n: nat)
    requires n <= |workers| && n <= |outcomes|
    ensures Unresolved(workers, outcomes + [o], n) == Unresolved(workers, outcomes, n)
  {
    if n > 0 {
      UnresolvedGrows(workers, outcomes, o, n - 1);
    }
  }

  ghost predicate Accounted(s: State) {
    && |s.life.history.outcomes| <= |s.life.snapshot|
    && Forces(s.net.log) == Unresolved(s.life.snapshot, s.life.history.outcomes, |s.life.history.outcomes|)
    && s.life.forced == |Forces(s.net.log)|
  }

  lemma EmitsNoForce(s: State, e: Event)
    requires !(e.Settle? && s.life.phase.WorkerLoop?)
    ensures |Step(s, e).net.log| > |s.net.log| ==> !Step(s, e).net.log[|s.net.log|].ForceWorker?
    ensures Step(s, e).life.forced == s.life.forced
    ensures Step(s, e).life.history.outcomes == s.life.history.outcomes
  {
  }

  lemma SameForces(s: State, e: Event)
    requires !(e.Settle? && s.life.phase.WorkerLoop?)
    ensures Forces(Step(s, e).net.log) == Forces(s.net.log) && Step(s, e).life.forced == s.life.forced
    ensures Step(s, e).life.history.outcomes == s.life.history.outcomes
  {
    StepEmits(s, e);
    EmitsNoForce(s, e);
    var log := Step(s, e).net.log;
    if log != s.net.log {
      ForcesAppend(s.net.log, log[|s.net.log|]);
      assert log == s.net.log + [log[|s.net.log|]];
    }
  }

  lemma SettleAccounts(s: State, o: Outcome)
    requires Sound(s) && Accounted(s) && s.life.phase.WorkerLoop?
    ensures Accounted(SettleWorkerStep(s, o))
  {
    var i := s.life.phase.i;
    if i < |s.life.snapshot| {
      UnresolvedGrows(s.life.snapshot, s.life.history.outcomes, o, i);
      ForcesAppend(s.net.log, ForceWorker(s.life.snapshot[i]));
    }
  }

  lemma StepAccounts(s: State, e: Event)
    requires Sound(s) && Accounted(s)
    ensures Accounted(Step(s, e))
  {
    if e.Settle? && s.life.phase.WorkerLoop? {
      SettleAccounts(s, e.outcome);
    } else {
      SameForces(s, e);
      StepKeepsSound(s, e);
      assert (e == ModuleDestroy && s.life.phase == Running) || Step(s, e).life.snapshot == s.life.snapshot;
    }
  }

  /** While worker `i` is waited for, at most `i` budgets plus the time since that wait began
      have passed. */
  ghost predicate WithinBudget(s: State) {
    var l, t, now := s.life, s.cfg.drainTimeout, s.net.clock;
    match l.phase
    case Running => true
    case WorkerLoop(i, busy, since) =>
      && l.startedAt.Some? && l.startedAt.value <= now
      && (busy ==> since <= now <= since + t && since <= l.startedAt.value + i * t)
      && (!busy ==> now <= l.startedAt.value + i * t)
    case _ => l.startedAt.Some? && l.startedAt.value <= l.history.drainedAt <= l.startedAt.value + |l.snapshot| * t
  }

  lemma OneMoreBudget(i: nat, t: nat)
    ensures (i + 1) * t == i * t + t
  {
  }

  lemma FewerBudgets(i: nat, n: nat, t: nat)
    requires i <= n
    ensures i * t <= n * t
  {
  }

  lemma AdvanceStaysWithinBudget(s: State)
    requires Sound(s) && WithinBudget(s)
    ensures WithinBudget(AdvanceStep(s))
  {
    if s.life.phase.WorkerLoop? {
      FewerBudgets(s.life.phase.i, |s.life.snapshot|, s.cfg.drainTimeout);
    }
  }

  lemma SettleStaysWithinBudget(s: State, o: Outcome)
    requires Sound(s) && WithinBudget(s)
    ensures WithinBudget(SettleStep(s, o))
  {
    if s.life.phase.WorkerLoop? {
      OneMoreBudget(s.life.phase.i, s.cfg.drainTimeout);
    }
  }

  lemma TickStaysWithinBudget(s: State, ms: nat)
    requires WithinBudget(s)
    ensures WithinBudget(TickStep(s, ms))
  {
  }

  lemma StepStaysWithinBudget(s: State, e: Event)
    requires Sound(s) && WithinBudget(s)
    ensures WithinBudget(Step(s, e))
  {
    match e
    case Advance => AdvanceStaysWithinBudget(s);
    case Settle(o) => SettleStaysWithinBudget(s, o);
    case Tick(ms) => TickStaysWithinBudget(s, ms);
    case ModuleDestroy =>
    case ApplicationShutdown =>
    case _ => assert Step(s, e).life == s.life && Step(s, e).net.clock == s.net.clock;
  }

  // ---- Every run ----

  /** The queues closed are all those created before the cache was emptied. */
  ghost predicate Cleared(s: State) {
    Rank(s.life.phase) >= 9 ==>
      && s.life.history.queues == Serials(s.life.history.createdAtClear)
      && s.life.history.createdAtClear <= s.cache.created
      && forall i :: 0 <= i < |s.cache.queues| && s.cache.queues[i].Full? ==>
                       s.cache.queues[i].value.serial >= s.life.history.createdAtClear
  }

  function Serials(n: nat): seq<Queue> {
    seq(n, i requires 0 <= i < n => Queue(i))
  }

  ghost predicate Proper(s: State) {
    Sound(s) && InOrder(s) && Staged(s) && Accounted(s) && WithinBudget(s) && Cleared(s)
  }

  lemma {:induction false} CacheListsSerials(m: JsMap<string, Queue>)
    requires forall i :: 0 <= i < |m| ==> m[i].Full? && m[i].value == Queue(i)
    ensures Values(m) == Serials(|m|)
  {
    if m != [] {
      CacheListsSerials(m[..|m| - 1]);
    }
  }

  lemma StepClears(s: State, e: Event)
    requires Sound(s) && Cleared(s)
    ensures Cleared(Step(s, e))
  {
    if e.Advance? && s.life.phase.QueueLoop? && !Busy(s.life.phase) && s.life.phase.i >= |s.cache.queues| {
      CacheListsSerials(s.cache.queues);
    }
  }

  lemma {:induction false} RunIsProper(s: State, es: seq<Event>)
    requires Proper(s)
    ensures Proper(Run(s, es)) && Run(s, es).cfg == s.cfg
    decreases |es|
  {
    if es != [] {
      var e := es[0];
      StepKeepsSound(s, e);
      StepKeepsOrder(s, e);
      StepStages(s, e);
      StepAccounts(s, e);
      StepStaysWithinBudget(s, e);
      StepClears(s, e);
      StepEmits(s, e);
      RunIsProper(Step(s, e), es[1..]);
    }
  }

  lemma BootIsProper(cfg: Config)
    ensures Proper(Boot(cfg))
  {
    BootInOrder(cfg);
    if cfg.mode == ModeA {
      ForcesAppend([], Disconnect(Bootstrap, 1));
    }
  }

  // ---- No connection, and so no worker, is listed twice ----

  ghost predicate NoRepeats<T(!new)>(xs: seq<T>) {
    forall a, b :: 0 <= a < b < |xs| ==> xs[a] != xs[b]
  }

  ghost predicate Separate(s: State) {
    var m, cs := s.workers.entries, s.events.connections;
    && (forall i, j :: 0 <= i < j < |m| && m[i].Full? && m[j].Full? ==> m[i].value.connection != m[j].value.connection)
    && (forall i, j :: 0 <= i < j < |cs| && cs[i].Full? && cs[j].Full? ==> cs[i].value != cs[j].value)
    && (forall i, j :: 0 <= i < |m| && 0 <= j < |cs| && m[i].Full? && cs[j].Full? ==>
                         m[i].value.connection != cs[j].value)
  }

  lemma {:induction false} DistinctValues<V(!new)>(m: JsMap<string, V>)
    requires forall i, j :: 0 <= i < j < |m| && m[i].Full? && m[j].Full? ==> m[i].value != m[j].value
    ensures NoRepeats(Values(m))
  {
    if m != [] {
      var n := |m| - 1;
      DistinctValues(m[..n]);
      if m[n].Full? {
        ValuesHold(m[..n], m[n].value);
      }
    }
  }

  lemma DistinctConnections(m: JsMap<string, WorkerEntry>)
    requires forall i, j :: 0 <= i < j < |m| && m[i].Full? && m[j].Full? ==>
                              m[i].value.connection != m[j].value.connection
    ensures NoRepeats(ConnectionsOf(Values(m)))
  {
    DistinctValues(m);
    var entries := Values(m);
    forall a, b | 0 <= a < b < |entries| ensures entries[a].connection != entries[b].connection {
      ValuesHold(m, entries[a]);
      ValuesHold(m, entries[b]);
    }
  }

  lemma DistinctTracked(s: State)
    requires Separate(s)
    ensures NoRepeats(ConnectionsOf(Values(s.workers.entries)) + Values(s.events.connections))
  {
    var entries, cs := Values(s.workers.entries), Values(s.events.connections);
    DistinctConnections(s.workers.entries);
    DistinctValues(s.events.connections);
    forall a, b | 0 <= a < |entries| && 0 <= b < |cs| ensures entries[a].connection != cs[b] {
      ValuesHold(s.workers.entries, entries[a]);
      ValuesHold(s.events.connections, cs[b]);
    }
  }

  lemma DistinctSnapshot(s: State)
    requires Sound(s) && Separate(s)
    ensures NoRepeats(WorkersOf(Values(s.workers.entries)))
  {
    var entries := Values(s.workers.entries);
    DistinctConnections(s.workers.entries);
    forall a | 0 <= a < |entries| ensures entries[a].worker.connection == entries[a].connection {
      ValuesHold(s.workers.entries, entries[a]);
    }
    forall a, b | 0 <= a < b < |entries| ensures entries[a].worker != entries[b].worker {
      assert ConnectionsOf(entries)[a] != ConnectionsOf(entries)[b];
    }
  }

  ghost predicate Unrepeated(s: State) {
    Separate(s) && NoRepeats(s.life.snapshot) && NoRepeats(s.life.dupes)
  }

  lemma RegisterSeparates(s: State, name: string, a: Attempt)
    requires Sound(s) && Separate(s)
    ensures Separate(Step(s, Register(name, a)))
  {
  }

  lemma ObserveSeparates(s: State, name: string, constructs: bool)
    requires Sound(s) && Separate(s)
    ensures Separate(Step(s, Observe(name, constructs)))
  {
    FindSameKeys(s.events.events, s.events.connections, name);
  }

  lemma ResumeSeparates(s: State, id: nat, ok: bool)
    requires Separate(s)
    ensures Separate(Step(s, Resume(id, ok)))
  {
  }

  lemma StepSeparates(s: State, e: Event)
    requires Sound(s) && Separate(s)
    ensures Separate(Step(s, e))
  {
    match e
    case Register(name, a) => RegisterSeparates(s, name, a);
    case RegisterSandboxed(name, fileValid, a) => RegisterSeparates(s, name, a);
    case Observe(name, constructs) => ObserveSeparates(s, name, constructs);
    case Resume(id, ok) => ResumeSeparates(s, id, ok);
    case _ => assert Step(s, e).workers.entries == s.workers.entries && Step(s, e).events == s.events;
  }

  lemma StepIsUnrepeated(s: State, e: Event)
    requires Sound(s) && Unrepeated(s)
    ensures Unrepeated(Step(s, e))
  {
    StepSeparates(s, e);
    DistinctTracked(s);
    DistinctSnapshot(s);
  }

  lemma {:induction false} RunIsUnrepeated(s: State, es: seq<Event>)
    requires Sound(s) && Unrepeated(s)
    ensures Unrepeated(Run(s, es))
    decreases |es|
  {
    if es != [] {
      StepIsUnrepeated(s, es[0]);
      StepKeepsSound(s, es[0]);
      RunIsUnrepeated(Step(s, es[0]), es[1..]);
    }
  }

  // ---- What the log holds by which phase ----

  lemma {:induction false} PrimaryHolds(log: seq<Effect>, e: Effect)
    requires Primary(e)
    ensures e in log <==> e in PrimaryCalls(log)
  {
    if log != [] {
      PrimaryHolds(log[..|log| - 1], e);
      assert log == log[..|log| - 1] + [log[|log| - 1]];
    }
  }

  lemma {:induction false} EachHolds<T>(f: T -> Effect, xs: seq<T>, n: nat, e: Effect)
    requires n <= |xs|
    ensures e in Each(f, xs, n) <==> exists i :: 0 <= i < n && f(xs[i]) == e
  {
    if n > 0 {
      EachHolds(f, xs, n - 1, e);
    }
  }

  /** The calls of the parts that are over stay in the list of those due. */
  lemma DueStays(cfg: Config, phase: Phase, p: Parts, e: Effect)
    ensures Rank(phase) >= 2 && e in WorkersClosed(p) ==> e in Before(cfg, phase, p)
    ensures Rank(phase) >= 4 && e in EventsClosed(p) ==> e in Before(cfg, phase, p)
    ensures Rank(phase) >= 5 && e in DupesQuit(p) ==> e in Before(cfg, phase, p)
    ensures Rank(phase) >= 9 && e in QueuesClosed(cfg, p) ==> e in Before(cfg, phase, p)
  {
  }

  lemma DueIsMade(s: State, e: Effect)
    requires InOrder(s) && Primary(e) && e in Before(s.cfg, s.life.phase, PartsOf(s.life))
    ensures e in s.net.log
  {
    PrimaryHolds(s.net.log, e);
  }

  lemma CopiedWorkersClose(s: State, w: Worker)
    requires InOrder(s) && Rank(s.life.phase) >= 2 && w in s.life.snapshot
    ensures CloseWorker(Actor.Shutdown, w) in s.net.log
  {
    var e, ws := CloseWorker(Actor.Shutdown, w), s.life.snapshot;
    var i :| 0 <= i < |ws| && ws[i] == w;
    assert ClosesWorker(ws[i]) == e;
    EachHolds(ClosesWorker, ws, |ws|, e);
    DueStays(s.cfg, s.life.phase, PartsOf(s.life), e);
    DueIsMade(s, e);
  }

  lemma EventsClose(s: State, ev: QueueEvents)
    requires InOrder(s) && Rank(s.life.phase) >= 4 && ev in s.life.history.events
    ensures CloseEvents(ev) in s.net.log
  {
    var e, evs := CloseEvents(ev), s.life.history.events;
    var i :| 0 <= i < |evs| && evs[i] == ev;
    assert ClosesEvents(evs[i]) == e;
    EachHolds(ClosesEvents, evs, |evs|, e);
    DueStays(s.cfg, s.life.phase, PartsOf(s.life), e);
    DueIsMade(s, e);
  }

  lemma CopiedConnectionsQuit(s: State, c: nat)
    requires InOrder(s) && Rank(s.life.phase) >= 5 && c in s.life.dupes
    ensures Quit(Actor.Shutdown, c) in s.net.log
  {
    var e, cs := Quit(Actor.Shutdown, c), s.life.dupes;
    var i :| 0 <= i < |cs| && cs[i] == c;
    assert Quits(cs[i]) == e;
    EachHolds(Quits, cs, |cs|, e);
    DueStays(s.cfg, s.life.phase, PartsOf(s.life), e);
    DueIsMade(s, e);
  }

  lemma QueuesClose(s: State, k: nat)
    requires InOrder(s) && Cleared(s) && Rank(s.life.phase) >= 9 && k < s.life.history.createdAtClear
    ensures CloseQueue(Queue(k)) in s.net.log
  {
    var e, queues := CloseQueue(Queue(k)), s.life.history.queues;
    assert ClosesQueue(queues[k]) == e;
    EachHolds(ClosesQueue, queues, |queues|, e);
    DueStays(s.cfg, s.life.phase, PartsOf(s.life), e);
    DueIsMade(s, e);
  }

  // ---- The guarantees ----

  lemma ReachableIsProper(cfg: Config, es: seq<Event>)
    ensures Proper(Run(Boot(cfg), es)) && Unrepeated(Run(Boot(cfg), es)) && Run(Boot(cfg), es).cfg == cfg
  {
    BootIsProper(cfg);
    RunIsProper(Boot(cfg), es);
    RunIsUnrepeated(Boot(cfg), es);
  }

  lemma ReachableInOrder(cfg: Config, es: seq<Event>)
    ensures InOrder(Run(Boot(cfg), es))
  {
    BootInOrder(cfg);
    RunKeepsOrder(Boot(cfg), es);
  }

  lemma LoggedIsTimely(s: State, e: Effect)
    requires Staged(s)
    ensures e in s.net.log ==> Timely(s, e)
  {
    if e in s.net.log {
      var k :| 0 <= k < |s.net.log| && s.net.log[k] == e;
      assert Timely(s, s.net.log[k]);
    }
  }

  lemma ReachableTimely(cfg: Config, es: seq<Event>, e: Effect)
    requires e in Run(Boot(cfg), es).net.log
    ensures Run(Boot(cfg), es).cfg == cfg && Timely(Run(Boot(cfg), es), e)
  {
    ReachableIsProper(cfg, es);
    LoggedIsTimely(Run(Boot(cfg), es), e);
  }

  /** The teardown calls of both hooks, spelled out from what the registries held: a close for each
      worker registered when `onModuleDestroy` was called, each queue-events object observed by the
      end of their loop, a quit for each connection tracked when they were copied, the optional
      drains, the flow producer, a close for each queue cached when the cache was emptied, and in
      Mode B one quit of the role client. */
  function WholeTeardown(cfg: Config, es: seq<Event>): seq<Effect> {
    All(ClosesWorker, WorkersThen(cfg, es))
    + All(ClosesEvents, Values(AtEventsDone(cfg, es).events.events))
    + All(Quits, ConnectionsThen(cfg, es))
    + (if cfg.drainOnShutdown then All(Drains, Values(AtDrained(cfg, es).cache.queues)) else [])
    + (if cfg.flows then [CloseProducer] else [])
    + All(ClosesQueue, Values(AtCleared(cfg, es).cache.queues))
    + (if cfg.mode == ModeB then [Quit(Shutdown, ROLE)] else [])
  }

  /** A moment is a state of the run, with the run's configuration. */
  lemma MomentIsReached(cfg: Config, es: seq<Event>, r: nat) returns (n: nat)
    ensures n <= |es| && LastAt(Boot(cfg), es, r) == Run(Boot(cfg), es[..n])
    ensures Proper(LastAt(Boot(cfg), es, r)) && LastAt(Boot(cfg), es, r).cfg == cfg
    ensures Rank(LastAt(Boot(cfg), es, r).life.phase) <= r
    ensures n < |es| ==> Rank(Run(Boot(cfg), es[..n + 1]).life.phase) > r
  {
    n := LastIsReached(Boot(cfg), es, r);
    ReachableIsProper(cfg, es[..n]);
  }

  lemma DrainedThen(cfg: Config, es: seq<Event>)
    requires Rank(Run(Boot(cfg), es).life.phase) > 6
    ensures Run(Boot(cfg), es).life.history.drained
         == if cfg.drainOnShutdown then Values(AtDrained(cfg, es).cache.queues) else []
  {
    DrainsAre(cfg, es);
    var _ := MomentIsReached(cfg, es, 6);
  }

  lemma DoneParts(cfg: Config, es: seq<Event>)
    requires Run(Boot(cfg), es).life.phase == Done
    ensures PartsOf(Run(Boot(cfg), es).life)
         == Parts(WorkersThen(cfg, es), Values(AtEventsDone(cfg, es).events.events), ConnectionsThen(cfg, es),
                  if cfg.drainOnShutdown then Values(AtDrained(cfg, es).cache.queues) else [],
                  Values(AtCleared(cfg, es).cache.queues))
  {
    SnapshotIs(cfg, es);
    EventsAre(cfg, es);
    CopyIs(cfg, es);
    DrainedThen(cfg, es);
    ClearedAre(cfg, es);
  }

  lemma DoneSequence(s: State, p: Parts)
    requires InOrder(s) && s.life.phase == Done && PartsOf(s.life) == p
    ensures PrimaryCalls(s.net.log)
         == All(ClosesWorker, p.workers) + All(ClosesEvents, p.events) + All(Quits, p.dupes) + All(Drains, p.drained)
          + (if s.cfg.flows then [CloseProducer] else []) + All(ClosesQueue, p.queues)
          + (if s.cfg.mode == ModeB then [Quit(Shutdown, ROLE)] else [])
  {
  }

  lemma DoneDupes(s: State)
    requires Sound(s) && s.life.phase == Done
    ensures forall c :: c in s.life.dupes ==> c != ROLE && c in s.net.released
  {
    forall c | c in s.life.dupes ensures c != ROLE && c in s.net.released {
      var i :| 0 <= i < |s.life.dupes| && s.life.dupes[i] == c;
      assert Released(s.life.phase, i);
    }
  }

  /** When both hooks have returned, the teardown calls made are exactly those due from what the
      registries held at each moment, in this order. No worker and no connection is listed twice,
      every listed connection is released, and the queues closed are all that were ever created
      until then. */
  lemma TeardownSequence(cfg: Config, es: seq<Event>)
    requires Run(Boot(cfg), es).life.phase == Done
    ensures var s := Run(Boot(cfg), es);
            && PrimaryCalls(s.net.log) == WholeTeardown(cfg, es)
            && NoRepeats(WorkersThen(cfg, es)) && NoRepeats(ConnectionsThen(cfg, es))
            && (forall c :: c in ConnectionsThen(cfg, es) ==> c != ROLE && c in s.net.released)
            && Values(AtCleared(cfg, es).cache.queues) == Serials(AtCleared(cfg, es).cache.created)
  {
    ReachableIsProper(cfg, es);
    DoneParts(cfg, es);
    DoneSequence(Run(Boot(cfg), es), PartsOf(Run(Boot(cfg), es).life));
    DoneDupes(Run(Boot(cfg), es));
    ClearedAre(cfg, es);
  }

  /** Once the worker phase is over, the shutdown has asked exactly the workers registered when
      `onModuleDestroy` was called to close: one call for each entry, in registry order. */
  lemma WorkersAreClosed(cfg: Config, es: seq<Event>)
    requires Rank(Run(Boot(cfg), es).life.phase) >= Rank(EventsLoop(0, false))
    ensures var entries := Values(AtDestroy(cfg, es).workers.entries);
            var closes := OfKind(ClosesAWorker, Run(Boot(cfg), es).net.log);
            && |closes| == |entries|
            && forall i :: 0 <= i < |closes| ==> closes[i] == CloseWorker(Actor.Shutdown, entries[i].worker)
  {
    ReachableIsProper(cfg, es);
    SnapshotIs(cfg, es);
    KindsLogged(Run(Boot(cfg), es));
    EachAt(ClosesWorker, WorkersThen(cfg, es), |WorkersThen(cfg, es)|);
  }

  predicate AfterWorkers(e: Effect) {
    e.CloseEvents? || ((e.Quit? || e.Disconnect?) && e.actor == Actor.Shutdown)
  }

  lemma SettledBefore(s: State, e: Effect)
    requires PhaseOk(s) && Accounted(s) && InOrder(s) && Timely(s, e) && AfterWorkers(e)
    ensures Rank(s.life.phase) >= 2
    ensures forall w :: w in s.life.snapshot ==> CloseWorker(Actor.Shutdown, w) in s.net.log
    ensures !e.CloseEvents? ==> Rank(s.life.phase) >= Rank(DupeLoop(0, false))
    ensures !e.CloseEvents? ==> forall ev :: ev in s.life.history.events ==> CloseEvents(ev) in s.net.log
    ensures |s.life.history.outcomes| == |s.life.snapshot|
    ensures Forces(s.net.log) == Unresolved(s.life.snapshot, s.life.history.outcomes, |s.life.snapshot|)
  {
    assert Earliest(e) >= 2 && (!e.CloseEvents? ==> Earliest(e) >= 4);
    forall w | w in s.life.snapshot ensures CloseWorker(Actor.Shutdown, w) in s.net.log {
      CopiedWorkersClose(s, w);
    }
    if !e.CloseEvents? {
      forall ev | ev in s.life.history.events ensures CloseEvents(ev) in s.net.log {
        EventsClose(s, ev);
      }
    }
  }

  lemma OutcomesFromBoot(cfg: Config, es: seq<Event>)
    ensures Run(Boot(cfg), es).life.history.outcomes == OutcomesOf(cfg, es)
  {
    BootSound(cfg);
    OutcomesAre(Boot(cfg), es);
  }

  /** Workers stop first: when the shutdown has closed queue-events or quit or disconnected a
      connection, every worker registered when the shutdown began has been closed, and forced if
      that did not resolve; and when it has quit or disconnected one, all the queue-events have
      been closed too. This holds in every reachable state, and so already in the first one with
      that call. */
  lemma WorkersSettleFirst(cfg: Config, es: seq<Event>, e: Effect)
    requires e in Run(Boot(cfg), es).net.log && AfterWorkers(e)
    ensures var s, ws, outcomes := Run(Boot(cfg), es), WorkersThen(cfg, es), OutcomesOf(cfg, es);
            && |outcomes| == |ws| && Forces(s.net.log) == Unresolved(ws, outcomes, |ws|)
            && (forall w :: w in ws ==> CloseWorker(Actor.Shutdown, w) in s.net.log)
            && (!e.CloseEvents? ==> forall ev :: Holds(AtEventsDone(cfg, es).events.events, ev) ==>
                                                   CloseEvents(ev) in s.net.log)
  {
    var s := Run(Boot(cfg), es);
    ReachableTimely(cfg, es, e);
    ReachableIsProper(cfg, es);
    SettledBefore(s, e);
    SnapshotIs(cfg, es);
    OutcomesFromBoot(cfg, es);
    if !e.CloseEvents? {
      EventsAre(cfg, es);
      forall ev | Holds(AtEventsDone(cfg, es).events.events, ev) ensures CloseEvents(ev) in s.net.log {
        ValuesHold(AtEventsDone(cfg, es).events.events, ev);
      }
    }
  }

  /** The cache was emptied, after each queue it held had its close called. */
  ghost predicate CacheIsClosed(emptied: QueueCache, s: State) {
    forall q :: Holds(emptied.queues, q) ==> CloseQueue(q) in s.net.log && !Holds(s.cache.queues, q)
  }

  /** Until `onApplicationShutdown` begins, no queue is drained or closed, the flow producer is
      not closed and the role client is not touched, whatever is enqueued meanwhile. Whenever the
      role client has been, every queue that was cached when the cache was emptied has been closed,
      and the cache holds none of them; this is so already in the first state with that call. */
  lemma LateEnqueueIsSafe(cfg: Config, es: seq<Event>, e: Effect)
    requires e in Run(Boot(cfg), es).net.log
    ensures var phase := Run(Boot(cfg), es).life.phase;
            && (e.DrainQueue? || e.CloseProducer? || e.CloseQueue? || OnRole(e) ==> Rank(phase) > Rank(Destroyed))
            && (OnRole(e) ==> phase == Role(true) || phase == Done)
            && (OnRole(e) ==> CacheIsClosed(AtCleared(cfg, es).cache, Run(Boot(cfg), es)))
  {
    ReachableIsProper(cfg, es);
    LoggedIsTimely(Run(Boot(cfg), es), e);
    TimelyEnqueueIsSafe(Run(Boot(cfg), es), e);
    if OnRole(e) {
      ClearedMeansClosed(cfg, es);
    }
  }

  lemma TimelyEnqueueIsSafe(s: State, e: Effect)
    requires Timely(s, e)
    ensures e.DrainQueue? || e.CloseProducer? || e.CloseQueue? || OnRole(e) ==> Rank(s.life.phase) > Rank(Destroyed)
    ensures OnRole(e) ==> s.life.phase == Role(true) || s.life.phase == Done
  {
  }

  lemma ClearedMeansClosed(cfg: Config, es: seq<Event>)
    requires Rank(Run(Boot(cfg), es).life.phase) >= 9
    ensures CacheIsClosed(AtCleared(cfg, es).cache, Run(Boot(cfg), es))
  {
    var s, emptied := Run(Boot(cfg), es), AtCleared(cfg, es).cache;
    ReachableIsProper(cfg, es);
    ClearedAre(cfg, es);
    forall q | Holds(emptied.queues, q) ensures CloseQueue(q) in s.net.log && !Holds(s.cache.queues, q) {
      ValuesHold(emptied.queues, q);
      var k :| 0 <= k < s.life.history.createdAtClear && s.life.history.queues[k] == q;
      QueuesClose(s, k);
    }
  }

  /** Mode A never quits or disconnects the consumer's client. Mode B touches the role client
      only from the shutdown, and disconnects it only if its `quit()` was rejected. */
  lemma RoleClientOwnership(cfg: Config, es: seq<Event>, e: Effect)
    requires e in Run(Boot(cfg), es).net.log && OnRole(e)
    ensures cfg.mode == ModeB && e.actor == Shutdown
    ensures e.Disconnect? ==> exists k :: RejectedAt(Boot(cfg), es, k)
  {
    ReachableTimely(cfg, es, e);
    if e.Disconnect? {
      RejectionHappened(Boot(cfg), es);
    }
  }

  /** Event `k` of the run rejects the pending quit of the role client. */
  ghost predicate RejectedAt(s: State, es: seq<Event>, k: int) {
    0 <= k < |es| && Run(s, es[..k]).life.phase == Role(true) && es[k] == Settle(Rejected)
  }

  lemma RejectionStep(s: State, e: Event)
    ensures Step(s, e).life.history.roleRejected && !s.life.history.roleRejected ==>
              s.life.phase == Role(true) && e == Settle(Rejected)
  {
  }

  lemma {:induction false} RejectionHappened(s: State, es: seq<Event>)
    requires Run(s, es).life.history.roleRejected && !s.life.history.roleRejected
    ensures exists k :: RejectedAt(s, es, k)
    decreases |es|
  {
    var s' := Step(s, es[0]);
    RejectionStep(s, es[0]);
    if s'.life.history.roleRejected {
      assert es[..0] == [];
      assert RejectedAt(s, es, 0);
    } else {
      RejectionHappened(s', es[1..]);
      var k :| RejectedAt(s', es[1..], k);
      assert es[..k + 1][1..] == es[1..][..k];
      assert RejectedAt(s, es, k + 1);
    }
  }

  /** The role client stays open in every run until the shutdown is done, and is then closed
      exactly when the library owns it. */
  lemma RoleClientReleasedIff(cfg: Config, es: seq<Event>)
    ensures ROLE in Run(Boot(cfg), es).net.released <==> Run(Boot(cfg), es).life.phase == Done && cfg.mode == ModeB
  {
    ReachableIsProper(cfg, es);
  }

  lemma AllHolds<V(!new)>(f: V -> Effect, m: JsMap<string, V>, v: V)
    requires forall x, y :: f(x) == f(y) ==> x == y
    ensures f(v) in All(f, Values(m)) <==> Holds(m, v)
  {
    EachHolds(f, Values(m), |Values(m)|, f(v));
    ValuesHold(m, v);
    if v in Values(m) {
      var i :| 0 <= i < |Values(m)| && Values(m)[i] == v;
    }
  }

  lemma ClosesHold(m: JsMap<string, Queue>, q: Queue)
    ensures CloseQueue(q) in All(ClosesQueue, Values(m)) <==> Holds(m, q)
  {
    AllHolds(ClosesQueue, m, q);
  }

  lemma DrainsHold(m: JsMap<string, Queue>, q: Queue)
    ensures DrainQueue(q) in All(Drains, Values(m)) <==> Holds(m, q)
    ensures DrainQueue(q) !in All(Drains, [])
  {
    AllHolds(Drains, m, q);
  }

  lemma EventsHold(m: JsMap<string, QueueEvents>, ev: QueueEvents)
    ensures CloseEvents(ev) in All(ClosesEvents, Values(m)) <==> Holds(m, ev)
  {
    AllHolds(ClosesEvents, m, ev);
  }

  lemma ClosesLogged(s: State, q: Queue)
    requires InOrder(s) && Rank(s.life.phase) > 8
    ensures CloseQueue(q) in s.net.log <==> CloseQueue(q) in All(ClosesQueue, s.life.history.queues)
  {
    KindsLogged(s);
    KindHolds(ClosesAQueue, s.net.log, CloseQueue(q));
  }

  lemma ClosesLoggedThen(cfg: Config, es: seq<Event>, q: Queue)
    requires Rank(Run(Boot(cfg), es).life.phase) > 8
    ensures var s := Run(Boot(cfg), es);
            CloseQueue(q) in s.net.log <==> CloseQueue(q) in All(ClosesQueue, s.life.history.queues)
  {
    ReachableInOrder(cfg, es);
    ClosesLogged(Run(Boot(cfg), es), q);
  }

  lemma DrainsLogged(s: State, q: Queue)
    requires InOrder(s) && Rank(s.life.phase) > 6
    ensures DrainQueue(q) in s.net.log <==> DrainQueue(q) in All(Drains, s.life.history.drained)
  {
    KindsLogged(s);
    KindHolds(DrainsAQueue, s.net.log, DrainQueue(q));
  }

  lemma DrainsLoggedThen(cfg: Config, es: seq<Event>, q: Queue)
    requires Rank(Run(Boot(cfg), es).life.phase) > 6
    ensures var s := Run(Boot(cfg), es);
            DrainQueue(q) in s.net.log <==> DrainQueue(q) in All(Drains, s.life.history.drained)
  {
    ReachableInOrder(cfg, es);
    DrainsLogged(Run(Boot(cfg), es), q);
  }

  lemma EventsLogged(s: State, ev: QueueEvents)
    requires InOrder(s) && Rank(s.life.phase) > 2
    ensures CloseEvents(ev) in s.net.log <==> CloseEvents(ev) in All(ClosesEvents, s.life.history.events)
  {
    KindsLogged(s);
    KindHolds(ClosesSomeEvents, s.net.log, CloseEvents(ev));
  }

  lemma EventsLoggedThen(cfg: Config, es: seq<Event>, ev: QueueEvents)
    requires Rank(Run(Boot(cfg), es).life.phase) > 2
    ensures var s := Run(Boot(cfg), es);
            CloseEvents(ev) in s.net.log <==> CloseEvents(ev) in All(ClosesEvents, s.life.history.events)
  {
    ReachableInOrder(cfg, es);
    EventsLogged(Run(Boot(cfg), es), ev);
  }

  /** Once `closeAll` has emptied the cache, a queue has been closed exactly if it was cached then:
      one that was created afterwards is never closed. */
  lemma QueueClosedIff(cfg: Config, es: seq<Event>, q: Queue)
    requires Rank(Run(Boot(cfg), es).life.phase) >= Rank(Role(false))
    ensures CloseQueue(q) in Run(Boot(cfg), es).net.log <==> Holds(AtCleared(cfg, es).cache.queues, q)
  {
    ClearedAre(cfg, es);
    ClosesLoggedThen(cfg, es, q);
    ClosesHold(AtCleared(cfg, es).cache.queues, q);
  }

  /** Once the drain is over or skipped, a queue has been drained exactly if draining is asked for
      and it was cached when the drain found nothing more to drain. */
  lemma QueueDrainedIff(cfg: Config, es: seq<Event>, q: Queue)
    requires Rank(Run(Boot(cfg), es).life.phase) >= Rank(Producer(false))
    ensures DrainQueue(q) in Run(Boot(cfg), es).net.log <==>
              cfg.drainOnShutdown && Holds(AtDrained(cfg, es).cache.queues, q)
  {
    DrainedThen(cfg, es);
    DrainsLoggedThen(cfg, es, q);
    DrainsHold(AtDrained(cfg, es).cache.queues, q);
  }

  /** Without the option no queue is drained at any moment. */
  lemma NoDrainUnasked(cfg: Config, es: seq<Event>, q: Queue)
    requires DrainQueue(q) in Run(Boot(cfg), es).net.log
    ensures cfg.drainOnShutdown
  {
    DrainsWhenAsked(Boot(cfg), es);
    ReachableTimely(cfg, es, DrainQueue(q));
    if Rank(Run(Boot(cfg), es).life.phase) > 6 {
      QueueDrainedIff(cfg, es, q);
    }
  }

  lemma {:induction false} DrainsWhenAsked(s: State, es: seq<Event>)
    requires DrainsIfAsked(s)
    ensures DrainsIfAsked(Run(s, es))
    decreases |es|
  {
    if es != [] {
      DrainStep(s, es[0]);
      DrainsWhenAsked(Step(s, es[0]), es[1..]);
    }
  }

  /** Once the loop over them is over, a queue-events object has been closed exactly if it was
      observed by then. */
  lemma EventsClosedIff(cfg: Config, es: seq<Event>, ev: QueueEvents)
    requires Rank(Run(Boot(cfg), es).life.phase) >= Rank(DupesStart)
    ensures CloseEvents(ev) in Run(Boot(cfg), es).net.log <==> Holds(AtEventsDone(cfg, es).events.events, ev)
  {
    EventsAre(cfg, es);
    EventsLoggedThen(cfg, es, ev);
    EventsHold(AtEventsDone(cfg, es).events.events, ev);
  }

  /** With `n` workers registered when the shutdown began and a budget of `T` ms each, the worker
      phase ends within `n * T`. The forced workers are exactly those whose close rejected or ran
      out of budget, in order, the forced count is their number, and all of it is settled before a
      duplicate is quit. */
  lemma DrainIsBounded(cfg: Config, es: seq<Event>)
    requires Rank(Run(Boot(cfg), es).life.phase) >= Rank(EventsLoop(0, false))
    ensures var s, ws, outcomes := Run(Boot(cfg), es), WorkersThen(cfg, es), OutcomesOf(cfg, es);
            var began, ended := AtDestroy(cfg, es).net.clock, AtWorkersDone(cfg, es).net.clock;
            && began <= ended <= began + |ws| * cfg.drainTimeout
            && |outcomes| == |ws| && NoRepeats(ws)
            && Forces(s.net.log) == Unresolved(ws, outcomes, |ws|)
            && s.life.forcedWorkers == |Forces(s.net.log)|
  {
    ReachableIsProper(cfg, es);
    ProperDrainIsBounded(Run(Boot(cfg), es));
    SnapshotIs(cfg, es);
    StartIs(cfg, es);
    DrainTimeIs(cfg, es);
    OutcomesFromBoot(cfg, es);
  }

  lemma ProperDrainIsBounded(s: State)
    requires Proper(s) && Unrepeated(s) && Rank(s.life.phase) >= 2
    ensures var l := s.life;
            && l.startedAt.Some?
            && l.startedAt.value <= l.history.drainedAt <= l.startedAt.value + |l.snapshot| * s.cfg.drainTimeout
            && |l.history.outcomes| == |l.snapshot| && NoRepeats(l.snapshot)
            && Forces(s.net.log) == Unresolved(l.snapshot, l.history.outcomes, |l.snapshot|)
            && l.forcedWorkers == |Forces(s.net.log)|
  {
  }
}
