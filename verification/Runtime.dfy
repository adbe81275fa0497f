/** The services as one machine. An event is what runs between two awaits: a call from the
    application, the resumption of a suspended one, time passing, or a turn of the shutdown. An
    event that cannot happen in a state leaves it as it is, so every sequence of events is a run. */
module Runtimes {
  import opened JsMaps
  import opened Networks
  import opened WorkerRegistries
  import opened QueueEventsRegistries
  import opened QueueServices
  import opened QueueLifecycles

  datatype Event =
    | Register(name: string, attempt: Attempt)
    | RegisterSandboxed(name: string, fileValid: bool, attempt: Attempt)
    | Unregister(name: string)
    | Resume(id: nat, ok: bool)
    | Observe(name: string, constructs: bool)
    | Use(name: string, constructs: bool)
    | Tick(ms: nat)
    | ModuleDestroy
    | ApplicationShutdown
    | Advance
    | Settle(outcome: Outcome)

  /** The clock stands still at the heads of the worker loop, which run without awaiting, and
      does not pass a pending drain deadline: the timer fires there. */
  function TickStep(s: State, ms: nat): State {
    var later := s.(net := s.net.(clock := s.net.clock + ms));
    match s.life.phase
    case WorkerLoop(_, busy, since) =>
      if busy && s.net.clock + ms <= since + s.cfg.drainTimeout then later else s
    case _ => later
  }

  function Step(s: State, e: Event): State {
    match e
    case Register(name, a) =>
      var r := RegisterStep(s.workers, s.net, name, a);
      s.(workers := r.workers, net := r.net)
    case RegisterSandboxed(name, fileValid, a) =>
      var r := RegisterSandboxedStep(s.workers, s.net, name, fileValid, a);
      s.(workers := r.workers, net := r.net)
    case Unregister(name) =>
      var r := UnregisterStep(s.workers, s.net, name);
      s.(workers := r.workers, net := r.net)
    case Resume(id, ok) =>
      var r := ResumeStep(s.workers, s.net, id, ok);
      s.(workers := r.workers, net := r.net)
    case Observe(name, constructs) =>
      var r := GetOrCreateStep(s.events, s.net, name, constructs);
      s.(events := r.events, net := r.net)
    case Use(name, constructs) => s.(cache := UseStep(s.cache, name, constructs))
    case Tick(ms) => TickStep(s, ms)
    case ModuleDestroy => ModuleDestroyStep(s)
    case ApplicationShutdown => ApplicationShutdownStep(s)
    case Advance => AdvanceStep(s)
    case Settle(o) => SettleStep(s, o)
  }

  function Run(s: State, es: seq<Event>): State
    decreases |es|
  {
    if es == [] then s else Run(Step(s, es[0]), es[1..])
  }

  lemma {:induction false} RunAppend(s: State, es: seq<Event>, fs: seq<Event>)
    ensures Run(s, es + fs) == Run(Run(s, es), fs)
    decreases |es|
  {
    if es == [] {
      assert es + fs == fs;
    } else {
      assert (es + fs)[1..] == es[1..] + fs;
      RunAppend(Step(s, es[0]), es[1..], fs);
    }
  }

  lemma RunCons(s: State, e: Event, es: seq<Event>)
    ensures Run(s, [e] + es) == Run(Step(s, e), es)
    ensures Run(s, [e]) == Step(s, e)
  {
    assert ([e] + es)[1..] == es;
    assert [e][1..] == [];
  }

  predicate LifecycleEvent(e: Event) {
    e.ModuleDestroy? || e.ApplicationShutdown? || e.Advance? || e.Settle?
  }

  // ---- Bookkeeping every run keeps ----

  function Rank(p: Phase): nat {
    match p
    case Running => 0
    case WorkerLoop(_, _, _) => 1
    case EventsLoop(_, _) => 2
    case DupesStart => 3
    case DupeLoop(_, _) => 4
    case Destroyed => 5
    case DrainLoop(_, _) => 6
    case Producer(_) => 7
    case QueueLoop(_, _) => 8
    case Role(_) => 9
    case Done => 10
  }

  /** The number of calls a loop has made: one more than its index while it waits. */
  function Made(i: nat, busy: bool): nat {
    if busy then i + 1 else i
  }

  ghost predicate OwnDuplicate(s: State, c: nat) {
    ROLE < c < s.net.issued
  }

  ghost predicate NetOk(s: State) {
    && 1 <= s.net.issued
    && forall c :: c in s.net.released ==> c < s.net.issued
  }

  ghost predicate EntryOk(s: State, entry: WorkerEntry) {
    entry.worker.connection == entry.connection && OwnDuplicate(s, entry.connection)
  }

  ghost predicate WorkersOk(s: State) {
    && UniqueKeys(s.workers.entries)
    && (forall i :: 0 <= i < |s.workers.entries| && s.workers.entries[i].Full? ==>
                      EntryOk(s, s.workers.entries[i].value))
    && (forall id :: id in s.workers.calls ==> id < s.workers.nextCall && EntryOk(s, s.workers.calls[id].entry))
  }

  /** The two maps of the queue-events registry list the same names in the same order. */
  ghost predicate EventsOk(s: State) {
    var ev, cs := s.events.events, s.events.connections;
    && |ev| == |cs|
    && forall i :: 0 <= i < |ev| ==>
         ev[i].Full? && cs[i].Full? && ev[i].key == cs[i].key && OwnDuplicate(s, cs[i].value)
         && ev[i].value == QueueEvents(cs[i].value)
  }

  /** Until the shutdown clears it, the cache lists every queue ever created, in order. */
  ghost predicate CacheOk(s: State) {
    Rank(s.life.phase) < 9 ==>
      && |s.cache.queues| == s.cache.created
      && forall i :: 0 <= i < |s.cache.queues| ==> s.cache.queues[i].Full? && s.cache.queues[i].value == Queue(i)
  }

  /** No loop has gone past the end of what it iterates over. */
  predicate InBounds(s: State) {
    match s.life.phase
    case WorkerLoop(i, busy, _) => Made(i, busy) <= |s.life.snapshot|
    case EventsLoop(i, busy) => Made(i, busy) <= |s.events.events|
    case DupeLoop(i, busy) => Made(i, busy) <= |s.life.dupes|
    case DrainLoop(i, busy) => Made(i, busy) <= |s.cache.queues|
    case QueueLoop(i, busy) => Made(i, busy) <= |s.cache.queues|
    case _ => true
  }

  ghost predicate PhaseOk(s: State) {
    var l := s.life;
    var h := l.history;
    && (Rank(l.phase) == 0 ==> l.snapshot == [] && h.outcomes == [])
    && (Rank(l.phase) < 5 ==> !l.phase.DupeLoop? ==> l.dupes == [])
    && (Rank(l.phase) >= 1 ==> l.startedAt.Some?)
    && (Rank(l.phase) >= 2 ==> |h.outcomes| == |l.snapshot| && l.forcedWorkers == l.forced)
    && (l.phase.WorkerLoop? ==> |h.outcomes| == l.phase.i)
    && InBounds(s)
  }

  /** The loop over the duplicates has settled the one at index `i`. */
  ghost predicate Released(p: Phase, i: nat) {
    Rank(p) > 4 || (p.DupeLoop? && i < p.i)
  }

  ghost predicate DupesOk(s: State) {
    && (forall i :: 0 <= i < |s.life.dupes| ==> OwnDuplicate(s, s.life.dupes[i]))
    && (forall i :: 0 <= i < |s.life.dupes| && Released(s.life.phase, i) ==> s.life.dupes[i] in s.net.released)
  }

  ghost predicate Sound(s: State) {
    NetOk(s) && WorkersOk(s) && EventsOk(s) && CacheOk(s) && PhaseOk(s) && DupesOk(s)
  }

  lemma BootSound(cfg: Config)
    ensures Sound(Boot(cfg))
  {
  }

  lemma FindSameKeys<V, W>(m: JsMap<string, V>, n: JsMap<string, W>, k: string)
    requires |m| == |n|
    requires forall i :: 0 <= i < |m| ==> m[i].Full? && n[i].Full? && m[i].key == n[i].key
    ensures Find(m, k) == Find(n, k)
  {
  }

  lemma StepKeepsNet(s: State, e: Event)
    requires Sound(s)
    ensures NetOk(Step(s, e))
    ensures s.net.issued <= Step(s, e).net.issued
    ensures s.net.released <= Step(s, e).net.released
  {
  }

  /** The connections a registry tracks are exactly those the shutdown would take from it. */
  lemma TrackedConnections(s: State, c: nat)
    ensures c in ConnectionsOf(Values(s.workers.entries)) + Values(s.events.connections) <==> Tracked(s, c)
  {
    var entries := Values(s.workers.entries);
    ValuesHold(s.events.connections, c);
    forall entry: WorkerEntry ensures entry in entries <==> Holds(s.workers.entries, entry) {
      ValuesHold(s.workers.entries, entry);
    }
    if c in ConnectionsOf(entries) {
      var i :| 0 <= i < |entries| && ConnectionsOf(entries)[i] == c;
      assert entries[i] in entries;
    }
    if TracksWorker(s.workers, c) {
      var entry :| Holds(s.workers.entries, entry) && entry.connection == c;
      var i :| 0 <= i < |entries| && entries[i] == entry;
      assert ConnectionsOf(entries)[i] == c;
    }
  }

  ghost predicate TracksWorker(w: Workers, c: nat) {
    exists entry :: Holds(w.entries, entry) && entry.connection == c
  }

  /** Some registry would hand `c` to the shutdown. */
  ghost predicate Tracked(s: State, c: nat) {
    TracksWorker(s.workers, c) || Holds(s.events.connections, c)
  }

  lemma StepKeepsDupes(s: State, e: Event)
    requires Sound(s)
    ensures DupesOk(Step(s, e))
  {
    if e.Advance? && s.life.phase.DupesStart? {
      CopyIsOwn(s);
    } else {
      StepKeepsNet(s, e);
    }
  }

  lemma CopyIsOwn(s: State)
    requires Sound(s) && s.life.phase.DupesStart?
    ensures DupesOk(AdvanceStep(s))
  {
    var dupes := AdvanceStep(s).life.dupes;
    forall i | 0 <= i < |dupes| ensures OwnDuplicate(s, dupes[i]) {
      TrackedConnections(s, dupes[i]);
    }
  }

  lemma RegisterKeepsWorkers(s: State, name: string, a: Attempt)
    requires Sound(s)
    ensures WorkersOk(Step(s, Register(name, a)))
  {
  }

  lemma UnregisterKeepsWorkers(s: State, name: string)
    requires Sound(s)
    ensures WorkersOk(Step(s, Unregister(name)))
  {
  }

  lemma ResumeKeepsWorkers(s: State, id: nat, ok: bool)
    requires Sound(s)
    ensures WorkersOk(Step(s, Resume(id, ok)))
  {
  }

  lemma StepKeepsWorkers(s: State, e: Event)
    requires Sound(s)
    ensures WorkersOk(Step(s, e))
  {
    StepKeepsNet(s, e);
    match e
    case Register(name, a) => RegisterKeepsWorkers(s, name, a);
    case RegisterSandboxed(name, fileValid, a) => RegisterKeepsWorkers(s, name, a);
    case Unregister(name) => UnregisterKeepsWorkers(s, name);
    case Resume(id, ok) => ResumeKeepsWorkers(s, id, ok);
    case _ => assert Step(s, e).workers == s.workers;
  }

  lemma StepKeepsEvents(s: State, e: Event)
    requires Sound(s)
    ensures EventsOk(Step(s, e)) && s.events.events <= Step(s, e).events.events
  {
    if e.Observe? {
      ObserveKeepsEvents(s, e.name, e.constructs);
    } else {
      StepKeepsNet(s, e);
      assert Step(s, e).events == s.events;
    }
  }

  lemma ObserveKeepsEvents(s: State, name: string, constructs: bool)
    requires Sound(s)
    ensures EventsOk(Step(s, Observe(name, constructs)))
    ensures s.events.events <= Step(s, Observe(name, constructs)).events.events
  {
    FindSameKeys(s.events.events, s.events.connections, name);
  }

  lemma PhasesAdvance(s: State, e: Event)
    ensures Rank(s.life.phase) <= Rank(Step(s, e).life.phase)
  {
  }

  lemma CacheChanges(s: State, e: Event)
    requires Rank(Step(s, e).life.phase) < 9
    ensures Step(s, e).cache == if e.Use? then UseStep(s.cache, e.name, e.constructs) else s.cache
  {
  }

  lemma StepKeepsCache(s: State, e: Event)
    requires Sound(s)
    ensures CacheOk(Step(s, e))
    ensures Rank(Step(s, e).life.phase) < 9 ==> s.cache.queues <= Step(s, e).cache.queues
    ensures Rank(s.life.phase) <= Rank(Step(s, e).life.phase)
  {
    PhasesAdvance(s, e);
    if Rank(Step(s, e).life.phase) < 9 {
      CacheChanges(s, e);
    }
  }

  lemma AdvanceKeepsBounds(s: State)
    requires Sound(s)
    ensures InBounds(AdvanceStep(s))
  {
  }

  lemma AdvanceKeepsPhase(s: State)
    requires Sound(s)
    ensures PhaseOk(AdvanceStep(s))
  {
    AdvanceKeepsBounds(s);
  }

  lemma SettleKeepsPhase(s: State, o: Outcome)
    requires Sound(s)
    ensures PhaseOk(SettleStep(s, o))
  {
  }

  lemma CallKeepsPhase(s: State, e: Event)
    requires Sound(s) && !LifecycleEvent(e) && s.events.events <= Step(s, e).events.events
    requires Rank(s.life.phase) < 9 ==> s.cache.queues <= Step(s, e).cache.queues
    ensures PhaseOk(Step(s, e))
  {
    assert Step(s, e).life == s.life;
  }

  lemma StepKeepsSound(s: State, e: Event)
    requires Sound(s)
    ensures Sound(Step(s, e))
  {
    StepKeepsNet(s, e);
    StepKeepsWorkers(s, e);
    StepKeepsEvents(s, e);
    StepKeepsCache(s, e);
    StepKeepsDupes(s, e);
    match e
    case Advance => AdvanceKeepsPhase(s);
    case Settle(o) => SettleKeepsPhase(s, o);
    case ModuleDestroy =>
    case ApplicationShutdown =>
    case _ => CallKeepsPhase(s, e);
  }

  lemma {:induction false} RunKeepsSound(s: State, es: seq<Event>)
    requires Sound(s)
    ensures Sound(Run(s, es))
    ensures s.net.issued <= Run(s, es).net.issued
    ensures s.net.released <= Run(s, es).net.released
    decreases |es|
  {
    if es != [] {
      StepKeepsSound(s, es[0]);
      StepKeepsNet(s, es[0]);
      RunKeepsSound(Step(s, es[0]), es[1..]);
    }
  }
}
