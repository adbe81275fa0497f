/** Discovery at bootstrap: each annotated provider becomes a worker whose jobs a dispatcher
    routes, with its listeners bound, until the first provider that cannot be wired. */
module ProcessorDiscovery {
  import opened Wrappers
  import opened JsMaps
  import opened Selections
  import opened Networks
  import opened WorkerRegistries
  import opened QueueEventsRegistries
  import opened QueueLifecycles
  import opened Runtimes
  import opened Conservation

  // ---- The dispatcher ----

  /** A method is an identity; `None` is a metadata key whose property is not callable. */
  datatype Handler = Handler(jobName: Option<string>, callable: Option<nat>)

  datatype Dispatcher = Dispatcher(named: map<string, nat>, catchAll: Option<nat>)

  /** The dispatcher after the last of `handlers` has been looked at. */
  function Built(handlers: seq<Handler>): Dispatcher {
    if handlers == [] then Dispatcher(map[], None)
    else
      var d, h := Built(handlers[..|handlers| - 1]), handlers[|handlers| - 1];
      match (h.callable, h.jobName)
      case (None, _) => d
      case (Some(fn), Some(name)) => d.(named := d.named[name := fn])
      case (Some(fn), None) => d.(catchAll := Some(fn))
  }

  method BuildDispatcher(handlers: seq<Handler>) returns (d: Dispatcher)
    ensures d == Built(handlers)
    ensures forall job :: Dispatch(d, job) == Select(handlers, job)
  {
    var named: map<string, nat> := map[];
    var catchAll := None;
    for i := 0 to |handlers|
      invariant Dispatcher(named, catchAll) == Built(handlers[..i])
    {
      assert handlers[..i + 1][..i] == handlers[..i];
      var h := handlers[i];
      if h.callable.Some? {
        if h.jobName.Some? {
          named := named[h.jobName.value := h.callable.value];
        } else {
          catchAll := Some(h.callable.value);
        }
      }
    }
    assert handlers[..|handlers|] == handlers;
    d := Dispatcher(named, catchAll);
    forall job ensures Dispatch(d, job) == Select(handlers, job) {
      DispatcherRefinesSearch(handlers, job);
    }
  }

  /** `None` is the rejection of a job nothing handles. */
  function Dispatch(d: Dispatcher, job: string): Option<nat> {
    if job in d.named then Some(d.named[job]) else d.catchAll
  }

  /** The last callable entry of the list with exactly this name; `None` names the catch-all. */
  function LastCallable(handlers: seq<Handler>, name: Option<string>): (r: Option<nat>)
    ensures r == None <==>
              forall k :: 0 <= k < |handlers| ==> !(handlers[k].callable.Some? && handlers[k].jobName == name)
    ensures r.Some? ==> exists k :: 0 <= k < |handlers| && handlers[k] == Handler(name, r)
                                    && forall j :: k < j < |handlers| && handlers[j].jobName == name
                                                   ==> handlers[j].callable == None
  {
    if handlers == [] then None
    else
      var n := |handlers| - 1;
      if handlers[n].callable.Some? && handlers[n].jobName == name then handlers[n].callable
      else LastCallable(handlers[..n], name)
  }

  /** Which method a job goes to, by searching the list: its name first, then the catch-all. */
  function Select(handlers: seq<Handler>, job: string): Option<nat> {
    var specific := LastCallable(handlers, Some(job));
    if specific.Some? then specific else LastCallable(handlers, None)
  }

  lemma {:induction false} DispatcherRefinesSearch(handlers: seq<Handler>, job: string)
    ensures Dispatch(Built(handlers), job) == Select(handlers, job)
    ensures Built(handlers).catchAll == LastCallable(handlers, None)
    ensures job in Built(handlers).named <==> LastCallable(handlers, Some(job)).Some?
  {
    if handlers != [] {
      DispatcherRefinesSearch(handlers[..|handlers| - 1], job);
    }
  }

  // ---- Wiring ----

  datatype Listener = Listener(event: string, callable: Option<nat>)

  datatype Processor = Processor(
    queue: string, attempt: Attempt, eventsConstruct: bool, handlers: seq<Handler>,
    workerListeners: seq<Listener>, queueListeners: seq<Listener>)

  /** A provider is skipped when it has no object instance or no `@Processor` metadata. */
  datatype Provider = Plain | Annotated(processor: Processor)

  datatype Bound =
    | OnWorker(worker: Worker, event: string, callable: nat)
    | OnQueueEvents(events: QueueEvents, event: string, callable: nat)

  datatype Problem = Duplicate | WorkerFailed(error: RegisterError) | EventsFailed

  /** Everything wiring changes; `dispatchers` pairs each worker with the dispatcher it runs. */
  datatype Wiring = Wiring(registered: set<string>, workers: Workers, events: EventsState, net: Net,
                           dispatchers: seq<(Worker, Dispatcher)>, bound: seq<Bound>)

  datatype Wired = Wired(wiring: Wiring, problem: Option<Problem>)

  function BoundToWorker(w: Worker, listeners: seq<Listener>): seq<Bound> {
    if listeners == [] then []
    else
      var last := listeners[|listeners| - 1];
      BoundToWorker(w, listeners[..|listeners| - 1])
      + if last.callable.Some? then [OnWorker(w, last.event, last.callable.value)] else []
  }

  function BoundToEvents(ev: QueueEvents, listeners: seq<Listener>): seq<Bound> {
    if listeners == [] then []
    else
      var last := listeners[|listeners| - 1];
      BoundToEvents(ev, listeners[..|listeners| - 1])
      + if last.callable.Some? then [OnQueueEvents(ev, last.event, last.callable.value)] else []
  }

  function WireStep(d: Wiring, p: Processor): Wired {
    if p.queue in d.registered then Wired(d, Some(Duplicate))
    else
      var r := RegisterStep(d.workers, d.net, p.queue, p.attempt);
      var d1 := d.(registered := d.registered + {p.queue}, workers := r.workers, net := r.net);
      if r.result.Err? then Wired(d1, Some(WorkerFailed(r.result.error)))
      else
        var worker := r.result.value;
        var d2 := d1.(dispatchers := d.dispatchers + [(worker, Built(p.handlers))],
                      bound := d.bound + BoundToWorker(worker, p.workerListeners));
        if p.queueListeners == [] then Wired(d2, None)
        else
          var o := GetOrCreateStep(d2.events, d2.net, p.queue, p.eventsConstruct);
          var d3 := d2.(events := o.events, net := o.net);
          if o.result == None then Wired(d3, Some(EventsFailed))
          else Wired(d3.(bound := d2.bound + BoundToEvents(o.result.value, p.queueListeners)), None)
  }

  function Processors(providers: seq<Provider>): seq<Processor> {
    if providers == [] then []
    else
      var last := providers[|providers| - 1];
      Processors(providers[..|providers| - 1]) + if last.Annotated? then [last.processor] else []
  }

  predicate IsAnnotated(p: Provider) {
    p.Annotated?
  }

  /** `at` lists the indices of the annotated providers, in order. */
  ghost predicate AnnotatedAt(providers: seq<Provider>, at: seq<nat>) {
    SelectedAt(IsAnnotated, providers, at)
  }

  predicate AreAnnotated(providers: seq<Provider>, at: seq<nat>) {
    forall k :: 0 <= k < |at| ==> at[k] < |providers| && providers[at[k]].Annotated?
  }

  /** What the providers at these indices are annotated with. */
  function Picked(providers: seq<Provider>, at: seq<nat>): seq<Processor>
    requires AreAnnotated(providers, at)
  {
    seq(|at|, k requires 0 <= k < |at| => providers[at[k]].processor)
  }

  lemma PickedStays(providers: seq<Provider>, at: seq<nat>)
    requires providers != [] && AreAnnotated(providers[..|providers| - 1], at)
    ensures AreAnnotated(providers, at) && Picked(providers, at) == Picked(providers[..|providers| - 1], at)
  {
  }

  lemma PickedAdds(providers: seq<Provider>, at: seq<nat>, n: nat)
    requires n < |providers| && providers[n].Annotated? && AreAnnotated(providers, at)
    ensures AreAnnotated(providers, at + [n])
    ensures Picked(providers, at + [n]) == Picked(providers, at) + [providers[n].processor]
  {
  }

  /** Discovery goes over exactly the annotated providers, in order. */
  lemma {:induction false} ProcessorsArePicked(providers: seq<Provider>)
    ensures AreAnnotated(providers, Indices(IsAnnotated, providers))
    ensures Processors(providers) == Picked(providers, Indices(IsAnnotated, providers))
  {
    if providers != [] {
      var n := |providers| - 1;
      var front := Indices(IsAnnotated, providers[..n]);
      ProcessorsArePicked(providers[..n]);
      PickedStays(providers, front);
      if providers[n].Annotated? {
        PickedAdds(providers, front, n);
      }
    }
  }

  /** The result of discovery, told from the annotated providers. */
  ghost predicate Discovers(d: Wiring, providers: seq<Provider>, r: Wired) {
    exists at :: AnnotatedAt(providers, at) && AreAnnotated(providers, at) && r == WireAll(d, Picked(providers, at))
  }

  lemma AllProcessorsDiscover(d: Wiring, providers: seq<Provider>)
    ensures Discovers(d, providers, WireAll(d, Processors(providers)))
  {
    ProcessorsArePicked(providers);
    IndicesSelect(IsAnnotated, providers);
  }

  /** Wiring stops at the first processor that throws. */
  function WireAll(d: Wiring, ps: seq<Processor>): Wired {
    if ps == [] then Wired(d, None)
    else
      var before := WireAll(d, ps[..|ps| - 1]);
      if before.problem.Some? then before else WireStep(before.wiring, ps[|ps| - 1])
  }

  class ProcessorDiscoveryService {
    const network: Network
    const workers: WorkerRegistry
    const events: QueueEventsRegistry
    var registeredQueues: set<string>
    var dispatchers: seq<(Worker, Dispatcher)>
    var bound: seq<Bound>

    constructor (network: Network, workers: WorkerRegistry, events: QueueEventsRegistry)
      requires workers.network == network && events.network == network
      ensures this.network == network && this.workers == workers && this.events == events && Shared()
      ensures registeredQueues == {} && dispatchers == [] && bound == []
    {
      this.network, this.workers, this.events := network, workers, events;
      registeredQueues, dispatchers, bound := {}, [], [];
    }

    predicate Shared() {
      workers.network == network && events.network == network
    }

    ghost function Model(): Wiring
      reads this, network, workers, events
    {
      Wiring(registeredQueues, workers.Model(), events.Model(), network.net, dispatchers, bound)
    }

    method BindWorker(worker: Worker, listeners: seq<Listener>)
      modifies this
      ensures Model() == old(Model()).(bound := old(bound) + BoundToWorker(worker, listeners))
    {
      for i := 0 to |listeners|
        invariant Model() == old(Model()).(bound := old(bound) + BoundToWorker(worker, listeners[..i]))
      {
        assert listeners[..i + 1][..i] == listeners[..i];
        var l := listeners[i];
        if l.callable.Some? {
          bound := bound + [OnWorker(worker, l.event, l.callable.value)];
        }
      }
      assert listeners[..|listeners|] == listeners;
    }

    method BindEvents(ev: QueueEvents, listeners: seq<Listener>)
      modifies this
      ensures Model() == old(Model()).(bound := old(bound) + BoundToEvents(ev, listeners))
    {
      for i := 0 to |listeners|
        invariant Model() == old(Model()).(bound := old(bound) + BoundToEvents(ev, listeners[..i]))
      {
        assert listeners[..i + 1][..i] == listeners[..i];
        var l := listeners[i];
        if l.callable.Some? {
          bound := bound + [OnQueueEvents(ev, l.event, l.callable.value)];
        }
      }
      assert listeners[..|listeners|] == listeners;
    }

    method WireProcessor(p: Processor) returns (problem: Option<Problem>)
      requires Shared()
      modifies this, network, workers, events
      ensures Wired(Model(), problem) == WireStep(old(Model()), p)
    {
      if p.queue in registeredQueues {
        return Some(Duplicate);
      }
      registeredQueues := registeredQueues + {p.queue};
      var dispatcher := BuildDispatcher(p.handlers);
      var r := workers.Register(p.queue, p.attempt);
      if r.Err? {
        return Some(WorkerFailed(r.error));
      }
      dispatchers := dispatchers + [(r.value, dispatcher)];
      BindWorker(r.value, p.workerListeners);
      if p.queueListeners != [] {
        var ev := events.GetOrCreate(p.queue, p.eventsConstruct);
        if ev == None {
          return Some(EventsFailed);
        }
        BindEvents(ev.value, p.queueListeners);
      }
      return None;
    }

    method OnModuleInit(providers: seq<Provider>) returns (problem: Option<Problem>)
      requires Shared()
      modifies this, network, workers, events
      ensures Discovers(old(Model()), providers, Wired(Model(), problem))
    {
      ghost var start := Model();
      problem := None;
      var i := 0;
      while i < |providers| && problem == None
        invariant i <= |providers|
        invariant Wired(Model(), problem) == WireAll(start, Processors(providers[..i]))
      {
        OneMoreProvider(start, providers, i);
        if providers[i].Annotated? {
          problem := WireProcessor(providers[i].processor);
        }
        i := i + 1;
      }
      if problem.Some? {
        ProblemStays(start, providers, i);
      }
      assert providers[..|providers|] == providers;
      AllProcessorsDiscover(start, providers);
    }
  }

  lemma OneMoreProvider(d: Wiring, providers: seq<Provider>, i: nat)
    requires i < |providers|
    ensures var before := WireAll(d, Processors(providers[..i]));
            WireAll(d, Processors(providers[..i + 1]))
            == if !providers[i].Annotated? || before.problem.Some? then before
               else WireStep(before.wiring, providers[i].processor)
  {
    var ps := Processors(providers[..i]);
    assert providers[..i + 1][..i] == providers[..i];
    if providers[i].Annotated? {
      assert (ps + [providers[i].processor])[..|ps|] == ps;
    } else {
      assert Processors(providers[..i + 1]) == ps;
    }
  }

  lemma {:induction false} ProblemStays(d: Wiring, providers: seq<Provider>, i: nat)
    requires i <= |providers| && WireAll(d, Processors(providers[..i])).problem.Some?
    ensures WireAll(d, Processors(providers)) == WireAll(d, Processors(providers[..i]))
    decreases |providers|
  {
    if i == |providers| {
      assert providers[..i] == providers;
    } else {
      var n := |providers| - 1;
      assert providers[..n][..i] == providers[..i];
      ProblemStays(d, providers[..n], i);
      ProblemStaysOne(d, providers);
    }
  }

  lemma ProblemStaysOne(d: Wiring, providers: seq<Provider>)
    requires providers != [] && WireAll(d, Processors(providers[..|providers| - 1])).problem.Some?
    ensures WireAll(d, Processors(providers)) == WireAll(d, Processors(providers[..|providers| - 1]))
  {
    var n := |providers| - 1;
    var ps := Processors(providers[..n]);
    if providers[n].Annotated? {
      assert (ps + [providers[n].processor])[..|ps|] == ps;
    } else {
      assert Processors(providers) == ps;
    }
  }

  // ---- When discovery succeeds, and what it leaves behind ----

  /** Nothing but its own queue name stands in the way of wiring `p` on top of `d`. */
  predicate Wirable(d: Wiring, p: Processor) {
    && p.queue !in d.registered && !Has(d.workers.entries, p.queue)
    && p.attempt.optionsValid && p.attempt.constructs
    && (p.queueListeners != [] ==> Has(d.events.events, p.queue) || p.eventsConstruct)
  }

  /** Each processor could be wired alone, and no two share a queue name. */
  ghost predicate AllWirable(d: Wiring, ps: seq<Processor>) {
    && (forall k :: 0 <= k < |ps| ==> Wirable(d, ps[k]))
    && (forall j, k :: 0 <= j < k < |ps| ==> ps[j].queue != ps[k].queue)
  }

  function QueueNames(ps: seq<Processor>): seq<string> {
    if ps == [] then [] else QueueNames(ps[..|ps| - 1]) + [ps[|ps| - 1].queue]
  }

  function Names(ps: seq<Processor>): set<string> {
    if ps == [] then {} else Names(ps[..|ps| - 1]) + {ps[|ps| - 1].queue}
  }

  /** How many duplicates the queue listeners of `ps` need. */
  function NewObservers(d: Wiring, ps: seq<Processor>): nat {
    if ps == [] then 0
    else
      var last := ps[|ps| - 1];
      NewObservers(d, ps[..|ps| - 1]) + if last.queueListeners != [] && !Has(d.events.events, last.queue) then 1 else 0
  }

  /** The duplicate the worker of the last of `ps` is built on. */
  function LastConnection(d: Wiring, ps: seq<Processor>): nat
    requires ps != []
  {
    d.net.issued + (|ps| - 1) + NewObservers(d, ps[..|ps| - 1])
  }

  function NewEntries(d: Wiring, ps: seq<Processor>): seq<WorkerEntry> {
    if ps == [] then []
    else
      var c := LastConnection(d, ps);
      NewEntries(d, ps[..|ps| - 1]) + [WorkerEntry(Worker(c), c)]
  }

  function NewDispatchers(d: Wiring, ps: seq<Processor>): seq<(Worker, Dispatcher)> {
    if ps == [] then []
    else NewDispatchers(d, ps[..|ps| - 1]) + [(Worker(LastConnection(d, ps)), Built(ps[|ps| - 1].handlers))]
  }

  /** Wiring `ps` on top of `d` has added exactly one worker for each, at the end and in order,
      running that processor's dispatcher on its own duplicate, and opened one more duplicate for
      each queue observed for the first time. */
  ghost predicate Added(d: Wiring, d': Wiring, ps: seq<Processor>) {
    && Keys(d'.workers.entries) == Keys(d.workers.entries) + QueueNames(ps)
    && Values(d'.workers.entries) == Values(d.workers.entries) + NewEntries(d, ps)
    && d'.dispatchers == d.dispatchers + NewDispatchers(d, ps)
    && d'.net.issued == d.net.issued + |ps| + NewObservers(d, ps)
    && d'.net.released == d.net.released && d'.net.log == d.net.log
  }

  /** The names taken after wiring `ps` on top of `d`. */
  ghost predicate Taken(d: Wiring, d': Wiring, ps: seq<Processor>) {
    && (forall q :: q in d'.registered <==> q in d.registered || q in Names(ps))
    && (forall q :: Has(d'.workers.entries, q) <==> Has(d.workers.entries, q) || q in Names(ps))
    && (forall q :: Has(d'.events.events, q) ==> Has(d.events.events, q) || q in Names(ps))
    && (forall q :: Has(d.events.events, q) ==> Has(d'.events.events, q))
  }

  lemma HasSet<V>(m: JsMap<string, V>, k: string, v: V, q: string)
    ensures Has(Set(m, k, v), q) <==> Has(m, q) || q == k
  {
    var m' := Set(m, k, v);
    assert forall i :: 0 <= i < |m| && m[i].Full? ==> m'[i].Full? && m'[i].key == m[i].key;
    if q == k {
      assert m'[Find(m, k)] == Full(k, v);
    }
  }

  lemma KeysAppend<V>(m: JsMap<string, V>, k: string, v: V)
    ensures Keys(m + [Full(k, v)]) == Keys(m) + [k]
  {
    assert (m + [Full(k, v)])[..|m|] == m;
  }

  lemma {:induction false} NamesListed(ps: seq<Processor>, q: string)
    ensures q in Names(ps) <==> exists k :: 0 <= k < |ps| && ps[k].queue == q
  {
    if ps != [] {
      var n := |ps| - 1;
      NamesListed(ps[..n], q);
      if k :| 0 <= k < n && ps[..n][k].queue == q {
        assert ps[k].queue == q;
      }
      if k :| 0 <= k < |ps| && ps[k].queue == q {
        assert k < n ==> ps[..n][k].queue == q;
      }
    }
  }

  lemma StuckStep(d: Wiring, p: Processor)
    ensures Wirable(d, p) <==> WireStep(d, p).problem == None
  {
  }

  lemma WireTakesEvents(d: Wiring, p: Processor, q: string)
    requires Wirable(d, p)
    ensures var d' := WireStep(d, p).wiring;
            && (Has(d'.events.events, q) ==> Has(d.events.events, q) || q == p.queue)
            && (Has(d.events.events, q) ==> Has(d'.events.events, q))
  {
    HasSet(d.events.events, p.queue, QueueEvents(d.net.issued + 1), q);
  }

  lemma WireTakes(d: Wiring, p: Processor)
    requires Wirable(d, p)
    ensures var d' := WireStep(d, p).wiring;
            && d'.registered == d.registered + {p.queue}
            && (forall q :: Has(d'.workers.entries, q) <==> Has(d.workers.entries, q) || q == p.queue)
            && (forall q :: Has(d'.events.events, q) ==> Has(d.events.events, q) || q == p.queue)
            && (forall q :: Has(d.events.events, q) ==> Has(d'.events.events, q))
  {
    var d' := WireStep(d, p).wiring;
    forall q ensures Has(d'.workers.entries, q) <==> Has(d.workers.entries, q) || q == p.queue {
      HasSet(d.workers.entries, p.queue, WorkerEntry(Worker(d.net.issued), d.net.issued), q);
    }
    forall q
      ensures Has(d'.events.events, q) ==> Has(d.events.events, q) || q == p.queue
      ensures Has(d.events.events, q) ==> Has(d'.events.events, q)
    {
      WireTakesEvents(d, p, q);
    }
  }

  lemma WireAdds(d: Wiring, p: Processor)
    requires Wirable(d, p)
    ensures var d' := WireStep(d, p).wiring;
            && Keys(d'.workers.entries) == Keys(d.workers.entries) + [p.queue]
            && Values(d'.workers.entries)
               == Values(d.workers.entries) + [WorkerEntry(Worker(d.net.issued), d.net.issued)]
            && d'.dispatchers == d.dispatchers + [(Worker(d.net.issued), Built(p.handlers))]
            && d'.net.issued
               == d.net.issued + 1 + (if p.queueListeners != [] && !Has(d.events.events, p.queue) then 1 else 0)
            && d'.net.released == d.net.released && d'.net.log == d.net.log
  {
    var entry := WorkerEntry(Worker(d.net.issued), d.net.issued);
    KeysAppend(d.workers.entries, p.queue, entry);
    ValuesAppend(d.workers.entries, Full(p.queue, entry));
  }

  lemma AllButLast(d: Wiring, ps: seq<Processor>)
    requires ps != []
    ensures var n := |ps| - 1;
            AllWirable(d, ps) <==> AllWirable(d, ps[..n]) && Wirable(d, ps[n]) && ps[n].queue !in Names(ps[..n])
  {
    var n := |ps| - 1;
    NamesListed(ps[..n], ps[n].queue);
    assert forall k :: 0 <= k < n ==> ps[..n][k] == ps[k];
  }

  lemma WirableLater(d: Wiring, d': Wiring, ps: seq<Processor>, p: Processor)
    requires Taken(d, d', ps)
    ensures Wirable(d', p) <==> Wirable(d, p) && p.queue !in Names(ps)
    ensures p.queue !in Names(ps) ==> Has(d'.events.events, p.queue) == Has(d.events.events, p.queue)
  {
  }

  lemma TakenByLast(d: Wiring, d': Wiring, ps: seq<Processor>)
    requires ps != [] && Taken(d, d', ps[..|ps| - 1]) && Wirable(d', ps[|ps| - 1])
    ensures Taken(d, WireStep(d', ps[|ps| - 1]).wiring, ps)
  {
    WireTakes(d', ps[|ps| - 1]);
    assert Names(ps) == Names(ps[..|ps| - 1]) + {ps[|ps| - 1].queue};
  }

  lemma Regroup<T>(x: seq<T>, y: seq<T>, z: T)
    ensures x + y + [z] == x + (y + [z])
  {
  }

  lemma AddedByLast(d: Wiring, d': Wiring, ps: seq<Processor>)
    requires ps != [] && Added(d, d', ps[..|ps| - 1]) && Wirable(d', ps[|ps| - 1])
    requires Has(d'.events.events, ps[|ps| - 1].queue) == Has(d.events.events, ps[|ps| - 1].queue)
    ensures Added(d, WireStep(d', ps[|ps| - 1]).wiring, ps)
  {
    var front, p := ps[..|ps| - 1], ps[|ps| - 1];
    var c := d'.net.issued;
    assert c == LastConnection(d, ps);
    WireAdds(d', p);
    Regroup(Keys(d.workers.entries), QueueNames(front), p.queue);
    Regroup(Values(d.workers.entries), NewEntries(d, front), WorkerEntry(Worker(c), c));
    Regroup(d.dispatchers, NewDispatchers(d, front), (Worker(c), Built(p.handlers)));
  }

  lemma {:induction false} DiscoveryTakes(d: Wiring, ps: seq<Processor>)
    ensures WireAll(d, ps).problem == None <==> AllWirable(d, ps)
    ensures AllWirable(d, ps) ==> Taken(d, WireAll(d, ps).wiring, ps)
    decreases |ps|
  {
    if ps != [] {
      var n := |ps| - 1;
      var before := WireAll(d, ps[..n]);
      DiscoveryTakes(d, ps[..n]);
      AllButLast(d, ps);
      if before.problem == None {
        StuckStep(before.wiring, ps[n]);
        WirableLater(d, before.wiring, ps[..n], ps[n]);
        if AllWirable(d, ps) {
          TakenByLast(d, before.wiring, ps);
        }
      }
    }
  }

  lemma {:induction false} DiscoveryAdds(d: Wiring, ps: seq<Processor>)
    requires AllWirable(d, ps)
    ensures Added(d, WireAll(d, ps).wiring, ps)
    decreases |ps|
  {
    if ps != [] {
      var n := |ps| - 1;
      var before := WireAll(d, ps[..n]).wiring;
      AllButLast(d, ps);
      DiscoveryTakes(d, ps[..n]);
      DiscoveryAdds(d, ps[..n]);
      WirableLater(d, before, ps[..n], ps[n]);
      AddedByLast(d, before, ps);
    }
  }

  /** Discovery stopped at index `k` with result `r`. */
  ghost predicate FirstProblem(d: Wiring, ps: seq<Processor>, k: nat, r: Wired) {
    && k < |ps| && AllWirable(d, ps[..k]) && !AllWirable(d, ps[..k + 1])
    && r == WireStep(WireAll(d, ps[..k]).wiring, ps[k])
    && Added(d, WireAll(d, ps[..k]).wiring, ps[..k])
    && (r.problem == Some(EventsFailed) || r.wiring.workers == WireAll(d, ps[..k]).wiring.workers)
    && (r.problem == Some(EventsFailed) ==>
          Keys(r.wiring.workers.entries) == Keys(WireAll(d, ps[..k]).wiring.workers.entries) + [ps[k].queue])
    && (r.problem == Some(Duplicate) ==> r.wiring == WireAll(d, ps[..k]).wiring)
    && r.problem.Some? && Causes(d, Names(ps[..k]), ps[k], r.problem.value)
  }

  /** Why `p` cannot be wired after processors for the `earlier` queues, in the order of the checks. */
  predicate Causes(d: Wiring, earlier: set<string>, p: Processor, problem: Problem) {
    var repeated := p.queue in d.registered || p.queue in earlier;
    var registers := p.attempt.optionsValid && p.attempt.constructs;
    match problem
    case Duplicate => repeated
    case WorkerFailed(DuplicateProcessor) => !repeated && Has(d.workers.entries, p.queue)
    case WorkerFailed(RegistrationFailed) => !repeated && !Has(d.workers.entries, p.queue) && !registers
    case EventsFailed =>
      && !repeated && !Has(d.workers.entries, p.queue) && registers
      && p.queueListeners != [] && !Has(d.events.events, p.queue) && !p.eventsConstruct
  }

  lemma StopReason(d: Wiring, d': Wiring, ps: seq<Processor>, p: Processor)
    requires Taken(d, d', ps) && WireStep(d', p).problem.Some?
    ensures var r := WireStep(d', p);
            && (r.problem == Some(EventsFailed) || r.wiring.workers == d'.workers)
            && (r.problem == Some(Duplicate) ==> r.wiring == d')
            && Causes(d, Names(ps), p, r.problem.value)
            && (r.problem == Some(EventsFailed) ==>
                  Keys(r.wiring.workers.entries) == Keys(d'.workers.entries) + [p.queue])
  {
    KeysAppend(d'.workers.entries, p.queue, WorkerEntry(Worker(d'.net.issued), d'.net.issued));
  }

  lemma {:induction false} StopsAtFirst(d: Wiring, ps: seq<Processor>) returns (k: nat)
    requires WireAll(d, ps).problem.Some?
    ensures FirstProblem(d, ps, k, WireAll(d, ps))
    decreases |ps|
  {
    var n := |ps| - 1;
    var front := ps[..n];
    DiscoveryTakes(d, front);
    if WireAll(d, front).problem.Some? {
      k := StopsAtFirst(d, front);
      assert front[..k] == ps[..k] && front[..k + 1] == ps[..k + 1];
    } else {
      k := n;
      DiscoveryTakes(d, ps);
      DiscoveryAdds(d, front);
      StopReason(d, WireAll(d, front).wiring, front, ps[n]);
      assert ps[..n + 1] == ps;
    }
  }

  // ---- Over the providers ----

  lemma {:induction false} QueueNamesAt(ps: seq<Processor>)
    ensures |QueueNames(ps)| == |ps| && forall k :: 0 <= k < |ps| ==> QueueNames(ps)[k] == ps[k].queue
  {
    if ps != [] {
      QueueNamesAt(ps[..|ps| - 1]);
    }
  }

  lemma {:induction false} NewDispatchersAt(d: Wiring, ps: seq<Processor>)
    ensures |NewDispatchers(d, ps)| == |ps|
    ensures forall k :: 0 <= k < |ps| ==> NewDispatchers(d, ps)[k].1 == Built(ps[k].handlers)
  {
    if ps != [] {
      NewDispatchersAt(d, ps[..|ps| - 1]);
    }
  }

  /** The providers at these indices can each be wired alone, and no two share a queue name. */
  ghost predicate WirableAt(d: Wiring, providers: seq<Provider>, at: seq<nat>)
    requires AreAnnotated(providers, at)
  {
    && (forall k :: 0 <= k < |at| ==> Wirable(d, providers[at[k]].processor))
    && (forall j, k :: 0 <= j < k < |at| ==>
                         providers[at[j]].processor.queue != providers[at[k]].processor.queue)
  }

  /** Exactly the providers at these indices have been wired on top of `d`: their queues are
      registered in order, and each has a dispatcher that sends every job where a search of its own
      handlers would. */
  ghost predicate WiredAt(d: Wiring, d': Wiring, providers: seq<Provider>, at: seq<nat>)
    requires AreAnnotated(providers, at)
  {
    var names, names', n := Keys(d.workers.entries), Keys(d'.workers.entries), |d.dispatchers|;
    && |names'| == |names| + |at| && names <= names'
    && (forall k :: 0 <= k < |at| ==> names'[|names| + k] == providers[at[k]].processor.queue)
    && |d'.dispatchers| == n + |at| && d.dispatchers <= d'.dispatchers
    && forall k, job :: 0 <= k < |at| ==>
         Dispatch(d'.dispatchers[n + k].1, job) == Select(providers[at[k]].processor.handlers, job)
  }

  lemma AddedIsWired(d: Wiring, d': Wiring, providers: seq<Provider>, at: seq<nat>)
    requires AreAnnotated(providers, at)
    requires Added(d, d', Picked(providers, at))
    ensures WiredAt(d, d', providers, at)
  {
    var ps := Picked(providers, at);
    QueueNamesAt(ps);
    NewDispatchersAt(d, ps);
    forall k, job | 0 <= k < |at|
      ensures Dispatch(d'.dispatchers[|d.dispatchers| + k].1, job) == Select(providers[at[k]].processor.handlers, job)
    {
      DispatcherRefinesSearch(ps[k].handlers, job);
    }
  }

  /** The first annotated provider that spoils the list: those before it are wired, and its own
      checks say what is wrong with it. It adds nothing unless only its queue-events failed. */
  ghost predicate StoppedAt(d: Wiring, providers: seq<Provider>, at: seq<nat>, k: nat, r: Wired)
    requires AreAnnotated(providers, at)
  {
    && k < |at| && WirableAt(d, providers, at[..k]) && !WirableAt(d, providers, at[..k + 1])
    && r.problem.Some? && Causes(d, Names(Picked(providers, at[..k])), providers[at[k]].processor, r.problem.value)
    && var before := WireAll(d, Picked(providers, at[..k])).wiring;
       && WiredAt(d, before, providers, at[..k])
       && if r.problem != Some(EventsFailed) then r.wiring.workers == before.workers
          else Keys(r.wiring.workers.entries) == Keys(before.workers.entries) + [providers[at[k]].processor.queue]
  }

  lemma WirableAtIff(d: Wiring, providers: seq<Provider>, at: seq<nat>)
    requires AreAnnotated(providers, at)
    ensures WirableAt(d, providers, at) <==> AllWirable(d, Picked(providers, at))
  {
    var ps := Picked(providers, at);
    assert forall k :: 0 <= k < |at| ==> ps[k] == providers[at[k]].processor;
  }

  lemma StopsAtProvider(d: Wiring, providers: seq<Provider>, at: seq<nat>) returns (k: nat)
    requires AreAnnotated(providers, at) && WireAll(d, Picked(providers, at)).problem.Some?
    ensures StoppedAt(d, providers, at, k, WireAll(d, Picked(providers, at)))
  {
    var ps := Picked(providers, at);
    k := StopsAtFirst(d, ps);
    assert ps[..k] == Picked(providers, at[..k]) && ps[..k + 1] == Picked(providers, at[..k + 1]);
    WirableAtIff(d, providers, at[..k]);
    WirableAtIff(d, providers, at[..k + 1]);
    AddedIsWired(d, WireAll(d, ps[..k]).wiring, providers, at[..k]);
  }

  /** Over any provider list and any registry it starts from: `onModuleInit` returns exactly when
      the annotated providers can each be wired and no two share a queue name, and it has then wired
      exactly those, in order. Otherwise it throws for the first of them that spoils the list. */
  lemma DiscoverySucceedsIff(d: Wiring, providers: seq<Provider>, at: seq<nat>)
    requires AnnotatedAt(providers, at) && AreAnnotated(providers, at)
    ensures var r := WireAll(d, Picked(providers, at));
            && (r.problem == None <==> WirableAt(d, providers, at))
            && (r.problem == None ==> WiredAt(d, r.wiring, providers, at))
            && (r.problem.Some? ==> exists k :: StoppedAt(d, providers, at, k, r))
  {
    var ps := Picked(providers, at);
    DiscoveryTakes(d, ps);
    WirableAtIff(d, providers, at);
    if AllWirable(d, ps) {
      DiscoveryAdds(d, ps);
      AddedIsWired(d, WireAll(d, ps).wiring, providers, at);
    } else {
      var k := StopsAtProvider(d, providers, at);
    }
  }

  // ---- The listeners discovery binds ----

  ghost predicate Lists(listeners: seq<Listener>, event: string, callable: nat) {
    exists i :: 0 <= i < |listeners| && listeners[i] == Listener(event, Some(callable))
  }

  /** `b` binds a callable listener of `p`: to its worker, or to the queue-events object its queue
      is mapped to. */
  ghost predicate BoundFor(d: Wiring, p: Processor, worker: Worker, b: Bound) {
    match b
    case OnWorker(w, event, callable) => w == worker && Lists(p.workerListeners, event, callable)
    case OnQueueEvents(ev, event, callable) =>
      Get(d.events.events, p.queue) == Some(ev) && Lists(p.queueListeners, event, callable)
  }

  lemma ListsLast(listeners: seq<Listener>, event: string, callable: nat)
    requires listeners != []
    ensures var n := |listeners| - 1;
            Lists(listeners, event, callable) <==>
              Lists(listeners[..n], event, callable) || listeners[n] == Listener(event, Some(callable))
  {
    var n := |listeners| - 1;
    assert forall i :: 0 <= i < n ==> listeners[..n][i] == listeners[i];
    if i :| 0 <= i < |listeners| && listeners[i] == Listener(event, Some(callable)) {
      assert i < n ==> listeners[..n][i] == Listener(event, Some(callable));
    }
  }

  lemma {:induction false} BoundToWorkerHolds(w: Worker, listeners: seq<Listener>, b: Bound)
    ensures b in BoundToWorker(w, listeners) <==> b.OnWorker? && b.worker == w && Lists(listeners, b.event, b.callable)
  {
    if listeners != [] {
      BoundToWorkerHolds(w, listeners[..|listeners| - 1], b);
      ListsLast(listeners, b.event, b.callable);
    }
  }

  lemma {:induction false} BoundToEventsHolds(ev: QueueEvents, listeners: seq<Listener>, b: Bound)
    ensures b in BoundToEvents(ev, listeners) <==>
              b.OnQueueEvents? && b.events == ev && Lists(listeners, b.event, b.callable)
  {
    if listeners != [] {
      BoundToEventsHolds(ev, listeners[..|listeners| - 1], b);
      ListsLast(listeners, b.event, b.callable);
    }
  }

  lemma ObservedEvents(e: EventsState, n: Net, name: string, q: string)
    ensures var o := GetOrCreateStep(e, n, name, true);
            && o.result.Some? && Get(o.events.events, name) == o.result
            && (q != name ==> Get(o.events.events, q) == Get(e.events, q))
  {
    if !Has(e.events, name) {
      GetAfterSet(e.events, name, QueueEvents(n.issued), name);
      GetAfterSet(e.events, name, QueueEvents(n.issued), q);
    }
  }

  lemma WireBinds(d: Wiring, p: Processor, b: Bound)
    requires Wirable(d, p)
    ensures var d' := WireStep(d, p).wiring;
            && (b in d'.bound <==> b in d.bound || BoundFor(d', p, Worker(d.net.issued), b))
            && (forall q :: q != p.queue ==> Get(d'.events.events, q) == Get(d.events.events, q))
  {
    var d' := WireStep(d, p).wiring;
    var r := RegisterStep(d.workers, d.net, p.queue, p.attempt);
    BoundToWorkerHolds(Worker(d.net.issued), p.workerListeners, b);
    if p.queueListeners != [] {
      var o := GetOrCreateStep(d.events, r.net, p.queue, p.eventsConstruct);
      assert o == GetOrCreateStep(d.events, r.net, p.queue, true);
      forall q
        ensures q != p.queue ==> Get(d'.events.events, q) == Get(d.events.events, q)
        ensures Get(d'.events.events, p.queue) == o.result
      {
        ObservedEvents(d.events, r.net, p.queue, q);
      }
      BoundToEventsHolds(o.result.value, p.queueListeners, b);
    }
  }

  /** The worker of processor `k`. */
  function WorkerOf(d: Wiring, ps: seq<Processor>, k: nat): Worker
    requires k < |ps|
  {
    Worker(LastConnection(d, ps[..k + 1]))
  }

  ghost predicate SomeBinds(d: Wiring, d': Wiring, ps: seq<Processor>, b: Bound) {
    exists k :: 0 <= k < |ps| && BoundFor(d', ps[k], WorkerOf(d, ps, k), b)
  }

  /** What wiring the last processor does not change for processor `k`. */
  lemma BindsAsBefore(d: Wiring, before: Wiring, after: Wiring, ps: seq<Processor>, k: nat, b: Bound)
    requires k < |ps| - 1
    requires Get(after.events.events, ps[k].queue) == Get(before.events.events, ps[k].queue)
    ensures var front := ps[..|ps| - 1];
            BoundFor(after, ps[k], WorkerOf(d, ps, k), b) <==> BoundFor(before, front[k], WorkerOf(d, front, k), b)
  {
    assert ps[..|ps| - 1][..k + 1] == ps[..k + 1];
  }

  /** The last processor's queue is its own, and the others' queue-events are as before. */
  ghost predicate LastApart(before: Wiring, after: Wiring, ps: seq<Processor>) {
    && ps != [] && (forall k :: 0 <= k < |ps| - 1 ==> ps[k].queue != ps[|ps| - 1].queue)
    && forall q :: q != ps[|ps| - 1].queue ==> Get(after.events.events, q) == Get(before.events.events, q)
  }

  lemma SomeStillBinds(d: Wiring, before: Wiring, after: Wiring, ps: seq<Processor>, b: Bound)
    requires LastApart(before, after, ps) && SomeBinds(d, before, ps[..|ps| - 1], b)
    ensures SomeBinds(d, after, ps, b)
  {
    var n := |ps| - 1;
    var k :| 0 <= k < n && BoundFor(before, ps[..n][k], WorkerOf(d, ps[..n], k), b);
    BindsAsBefore(d, before, after, ps, k, b);
  }

  lemma SomeBindsLast(d: Wiring, before: Wiring, after: Wiring, ps: seq<Processor>, b: Bound)
    requires LastApart(before, after, ps)
    ensures var n := |ps| - 1;
            SomeBinds(d, after, ps, b) <==>
              SomeBinds(d, before, ps[..n], b) || BoundFor(after, ps[n], WorkerOf(d, ps, n), b)
  {
    var n := |ps| - 1;
    if SomeBinds(d, after, ps, b) {
      var k :| 0 <= k < |ps| && BoundFor(after, ps[k], WorkerOf(d, ps, k), b);
      if k < n {
        BindsAsBefore(d, before, after, ps, k, b);
      }
    }
    if SomeBinds(d, before, ps[..n], b) {
      SomeStillBinds(d, before, after, ps, b);
    }
  }

  /** When discovery succeeds, the listeners bound are exactly the callable ones: each to the
      worker of its own processor, or to the queue-events object of its own queue. */
  lemma {:induction false} DiscoveryBinds(d: Wiring, ps: seq<Processor>, b: Bound)
    requires AllWirable(d, ps)
    ensures b in WireAll(d, ps).wiring.bound <==> b in d.bound || SomeBinds(d, WireAll(d, ps).wiring, ps, b)
    decreases |ps|
  {
    if ps != [] {
      var n := |ps| - 1;
      var before := WireAll(d, ps[..n]).wiring;
      AllButLast(d, ps);
      DiscoveryTakes(d, ps[..n]);
      DiscoveryBinds(d, ps[..n], b);
      LastBinds(d, before, ps, b);
      SomeBindsLast(d, before, WireStep(before, ps[n]).wiring, ps, b);
    }
  }

  lemma LastBinds(d: Wiring, before: Wiring, ps: seq<Processor>, b: Bound)
    requires AllWirable(d, ps) && ps != [] && before == WireAll(d, ps[..|ps| - 1]).wiring
    ensures var n := |ps| - 1;
            var after := WireStep(before, ps[n]).wiring;
            && (b in after.bound <==> b in before.bound || BoundFor(after, ps[n], WorkerOf(d, ps, n), b))
            && (forall q :: q != ps[n].queue ==> Get(after.events.events, q) == Get(before.events.events, q))
  {
    var n := |ps| - 1;
    AllButLast(d, ps);
    DiscoveryTakes(d, ps[..n]);
    DiscoveryAdds(d, ps[..n]);
    WirableLater(d, before, ps[..n], ps[n]);
    WireBinds(before, ps[n], b);
    assert ps[..n + 1] == ps;
  }

  // ---- Discovery is made of the registries' own calls ----

  function With(s: State, d: Wiring): State {
    s.(workers := d.workers, events := d.events, net := d.net)
  }

  lemma WiringIsARun(s: State, d: Wiring, p: Processor) returns (es: seq<Event>)
    requires With(s, d) == s
    ensures NoUnregister(es) && Run(s, es) == With(s, WireStep(d, p).wiring)
  {
    var register, observe := Event.Register(p.queue, p.attempt), Observe(p.queue, p.eventsConstruct);
    if p.queue in d.registered {
      es := [];
    } else {
      es := [register];
      RunCons(s, register, []);
      if RegisterStep(d.workers, d.net, p.queue, p.attempt).result.Ok? && p.queueListeners != [] {
        es := [register] + [observe];
        RunCons(s, register, [observe]);
        RunCons(Step(s, register), observe, []);
      }
    }
  }

  lemma {:induction false} DiscoveryIsARun(s: State, d: Wiring, ps: seq<Processor>) returns (es: seq<Event>)
    requires With(s, d) == s
    ensures NoUnregister(es) && Run(s, es) == With(s, WireAll(d, ps).wiring)
    decreases |ps|
  {
    if ps == [] {
      es := [];
    } else {
      var n := |ps| - 1;
      var before := WireAll(d, ps[..n]);
      es := DiscoveryIsARun(s, d, ps[..n]);
      if before.problem == None {
        var last := WiringIsARun(With(s, before.wiring), before.wiring, ps[n]);
        RunAppend(s, es, last);
        es := es + last;
      }
    }
  }

  /** However far discovery gets, with any constructor failing, no duplicate it opened is lost. */
  lemma DiscoveryConserves(cfg: Config, ps: seq<Processor>)
    ensures var s := Boot(cfg);
            Conserved(With(s, WireAll(Wiring({}, s.workers, s.events, s.net, [], []), ps).wiring))
  {
    var s := Boot(cfg);
    var es := DiscoveryIsARun(s, Wiring({}, s.workers, s.events, s.net, [], []), ps);
    NoUnregisterIsDisciplined(s, es);
    DuplicatesAreConserved(cfg, es);
  }
}
