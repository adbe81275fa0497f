/** The calls of one kind that the shutdown makes, such as its worker closes: once the loop that
    makes them is over, the log holds exactly those, in order. */
module TeardownKinds {
  import opened JsMaps
  import opened Networks
  import opened ConnectionResolvers
  import opened QueueLifecycles
  import opened Runtimes
  import opened TeardownOrder

  predicate ClosesAWorker(e: Effect) { e.CloseWorker? && e.actor == Actor.Shutdown }
  predicate ClosesSomeEvents(e: Effect) { e.CloseEvents? }
  predicate DrainsAQueue(e: Effect) { e.DrainQueue? }
  predicate ClosesAQueue(e: Effect) { e.CloseQueue? }

  /** The calls of one kind, in order. */
  function OfKind(kind: Effect -> bool, log: seq<Effect>): seq<Effect> {
    if log == [] then []
    else
      var last := log[|log| - 1];
      OfKind(kind, log[..|log| - 1]) + if kind(last) then [last] else []
  }

  lemma {:induction false} KindConcat(kind: Effect -> bool, x: seq<Effect>, y: seq<Effect>)
    ensures OfKind(kind, x + y) == OfKind(kind, x) + OfKind(kind, y)
    decreases |y|
  {
    if y == [] {
      assert x + y == x;
    } else {
      assert (x + y)[..|x + y| - 1] == x + y[..|y| - 1];
      KindConcat(kind, x, y[..|y| - 1]);
    }
  }

  lemma {:induction false} KindHolds(kind: Effect -> bool, log: seq<Effect>, e: Effect)
    ensures e in OfKind(kind, log) <==> e in log && kind(e)
  {
    if log != [] {
      KindHolds(kind, log[..|log| - 1], e);
      assert log == log[..|log| - 1] + [log[|log| - 1]];
    }
  }

  lemma {:induction false} KindIsPrimary(kind: Effect -> bool, log: seq<Effect>)
    requires forall e :: kind(e) ==> Primary(e)
    ensures OfKind(kind, PrimaryCalls(log)) == OfKind(kind, log)
  {
    if log != [] {
      var last := log[|log| - 1];
      KindIsPrimary(kind, log[..|log| - 1]);
      assert kind(last) ==> Primary(last);
      if Primary(last) {
        KindConcat(kind, PrimaryCalls(log[..|log| - 1]), [last]);
        KindOfOne(kind, last);
      } else {
        assert PrimaryCalls(log) == PrimaryCalls(log[..|log| - 1]);
      }
    }
  }

  lemma {:induction false} KindOfEach<T>(kind: Effect -> bool, f: T -> Effect, xs: seq<T>, n: nat, yes: bool)
    requires n <= |xs| && forall x :: kind(f(x)) == yes
    ensures OfKind(kind, Each(f, xs, n)) == if yes then Each(f, xs, n) else []
  {
    if n > 0 {
      KindOfEach(kind, f, xs, n - 1, yes);
      KindConcat(kind, Each(f, xs, n - 1), [f(xs[n - 1])]);
    }
  }

  lemma {:induction false} KindOfEachValue<V>(kind: Effect -> bool, f: V -> Effect, m: JsMap<string, V>, n: nat)
    requires n <= |m| && forall x :: !kind(f(x))
    ensures OfKind(kind, EachValue(f, m, n)) == []
  {
    if n > 0 {
      KindOfEachValue(kind, f, m, n - 1);
      KindConcat(kind, EachValue(f, m, n - 1), EachValue(f, m, n)[|EachValue(f, m, n - 1)|..]);
      assert EachValue(f, m, n) == EachValue(f, m, n - 1) + EachValue(f, m, n)[|EachValue(f, m, n - 1)|..];
    }
  }

  lemma {:induction false} KindOfOne(kind: Effect -> bool, e: Effect)
    ensures OfKind(kind, [e]) == if kind(e) then [e] else []
    ensures OfKind(kind, []) == []
  {
    assert [e][..0] == [];
  }

  function PhaseOf(e: Effect): nat {
    match e
    case CloseWorker(_, _) => 1
    case CloseEvents(_) => 2
    case DrainQueue(_) => 6
    case CloseQueue(_) => 8
    case _ => 0
  }

  /** Calls of this kind are all made in the phase of rank `r`. */
  ghost predicate OnlyAt(kind: Effect -> bool, r: nat) {
    r > 0 && forall e :: kind(e) ==> Primary(e) && PhaseOf(e) == r
  }

  lemma CurrentHasNone(kind: Effect -> bool, s: State, r: nat)
    requires InBounds(s) && OnlyAt(kind, r) && Rank(s.life.phase) > r
    ensures OfKind(kind, Current(s)) == []
  {
    match s.life.phase
    case EventsLoop(i, busy) => KindOfEachValue(kind, ClosesEvents, s.events.events, Made(i, busy));
    case DupeLoop(i, busy) => KindOfEach(kind, Quits, s.life.dupes, Made(i, busy), false);
    case DrainLoop(i, busy) => KindOfEachValue(kind, Drains, s.cache.queues, Made(i, busy));
    case Producer(_) => KindOfOne(kind, CloseProducer);
    case QueueLoop(i, busy) => KindOfEachValue(kind, ClosesQueue, s.cache.queues, Made(i, busy));
    case Role(_) => KindOfOne(kind, Quit(Actor.Shutdown, ROLE));
    case _ =>
  }

  lemma LoggedKind(kind: Effect -> bool, s: State, r: nat)
    requires InOrder(s) && OnlyAt(kind, r) && Rank(s.life.phase) > r
    ensures OfKind(kind, s.net.log) == OfKind(kind, Before(s.cfg, s.life.phase, PartsOf(s.life)))
  {
    CurrentHasNone(kind, s, r);
    KindIsPrimary(kind, s.net.log);
    KindConcat(kind, Before(s.cfg, s.life.phase, PartsOf(s.life)), Current(s));
  }

  /** Whether calls of a kind are those the loop of rank `r` makes. */
  ghost predicate MadeAt(kind: Effect -> bool, r: nat) {
    && OnlyAt(kind, r)
    && (forall w :: kind(ClosesWorker(w)) == (r == 1)) && (forall ev :: kind(ClosesEvents(ev)) == (r == 2))
    && (forall q :: kind(Drains(q)) == (r == 6)) && (forall q :: kind(ClosesQueue(q)) == (r == 8))
  }

  lemma KindOfWorkers(kind: Effect -> bool, ws: seq<Worker>, r: nat)
    requires MadeAt(kind, r)
    ensures OfKind(kind, All(ClosesWorker, ws)) == if r == 1 then All(ClosesWorker, ws) else []
  {
    KindOfEach(kind, ClosesWorker, ws, |ws|, r == 1);
  }

  lemma KindOfEvents(kind: Effect -> bool, evs: seq<QueueEvents>, r: nat)
    requires MadeAt(kind, r)
    ensures OfKind(kind, All(ClosesEvents, evs)) == if r == 2 then All(ClosesEvents, evs) else []
  {
    KindOfEach(kind, ClosesEvents, evs, |evs|, r == 2);
  }

  lemma KindOfConnections(kind: Effect -> bool, cs: seq<nat>, r: nat)
    requires MadeAt(kind, r)
    ensures OfKind(kind, All(Quits, cs)) == []
  {
    KindOfEach(kind, Quits, cs, |cs|, false);
  }

  lemma KindOfDrained(kind: Effect -> bool, qs: seq<Queue>, r: nat)
    requires MadeAt(kind, r)
    ensures OfKind(kind, All(Drains, qs)) == if r == 6 then All(Drains, qs) else []
  {
    KindOfEach(kind, Drains, qs, |qs|, r == 6);
  }

  lemma KindOfQueues(kind: Effect -> bool, qs: seq<Queue>, r: nat)
    requires MadeAt(kind, r)
    ensures OfKind(kind, All(ClosesQueue, qs)) == if r == 8 then All(ClosesQueue, qs) else []
  {
    KindOfEach(kind, ClosesQueue, qs, |qs|, r == 8);
  }

  /** The part of the teardown made in the phase of rank `r`. */
  function Part(p: Parts, r: nat): seq<Effect> {
    if r == 1 then All(ClosesWorker, p.workers)
    else if r == 2 then All(ClosesEvents, p.events)
    else if r == 6 then All(Drains, p.drained)
    else if r == 8 then All(ClosesQueue, p.queues)
    else []
  }

  /** What stage `k` adds to the calls due. */
  function Addition(cfg: Config, p: Parts, k: nat): seq<Effect> {
    if k == 0 then All(ClosesWorker, p.workers)
    else if k == 1 then All(ClosesEvents, p.events)
    else if k == 2 then All(Quits, p.dupes)
    else if k == 3 then All(Drains, p.drained)
    else if k == 4 then (if cfg.flows then [CloseProducer] else [])
    else if k == 5 then All(ClosesQueue, p.queues)
    else (if cfg.mode == ModeB then [Quit(Actor.Shutdown, ROLE)] else [])
  }

  /** The stage whose calls are made in the phase of rank `r`. */
  function StageFor(r: nat): nat {
    if r == 1 then 0 else if r == 2 then 1 else if r == 6 then 3 else 5
  }

  /** What `add` gives up to `k`, in order. */
  function Sum(add: nat -> seq<Effect>, k: nat): seq<Effect> {
    if k == 0 then add(0) else Sum(add, k - 1) + add(k)
  }

  /** The calls due when stage `k` is over. */
  function Stage(cfg: Config, p: Parts, k: nat): seq<Effect> {
    Sum((n: nat) => Addition(cfg, p, n), k)
  }

  lemma StagesNamed(cfg: Config, p: Parts)
    ensures Stage(cfg, p, 0) == WorkersClosed(p) && Stage(cfg, p, 1) == EventsClosed(p)
    ensures Stage(cfg, p, 2) == DupesQuit(p) && Stage(cfg, p, 3) == QueuesDrained(p)
    ensures Stage(cfg, p, 4) == ProducerClosed(cfg, p) && Stage(cfg, p, 5) == QueuesClosed(cfg, p)
    ensures Stage(cfg, p, 6) == RoleQuit(cfg, p)
  {
  }

  /** Which of the stages is over before a phase of this rank. */
  function StageOf(rank: nat): nat {
    if rank <= 2 then 0
    else if rank <= 4 then 1
    else if rank <= 6 then 2
    else if rank <= 9 then rank - 4
    else 6
  }

  lemma BeforeIsStage(cfg: Config, phase: Phase, p: Parts)
    requires Rank(phase) >= 2
    ensures Before(cfg, phase, p) == Stage(cfg, p, StageOf(Rank(phase)))
  {
    StagesNamed(cfg, p);
  }

  lemma KindOfSingle(kind: Effect -> bool, cfg: Config, p: Parts, r: nat, k: nat)
    requires MadeAt(kind, r) && (k == 4 || k == 6)
    ensures OfKind(kind, Addition(cfg, p, k)) == []
  {
    KindOfOne(kind, if k == 4 then CloseProducer else Quit(Actor.Shutdown, ROLE));
  }

  lemma KindOfHookLoops(kind: Effect -> bool, cfg: Config, p: Parts, r: nat, k: nat)
    requires MadeAt(kind, r) && (r == 1 || r == 2 || r == 6 || r == 8) && k < 3
    ensures OfKind(kind, Addition(cfg, p, k)) == if k == StageFor(r) then Part(p, r) else []
  {
    if k == 0 {
      KindOfWorkers(kind, p.workers, r);
    } else if k == 1 {
      KindOfEvents(kind, p.events, r);
    } else {
      KindOfConnections(kind, p.dupes, r);
    }
  }

  lemma KindOfQueueLoops(kind: Effect -> bool, cfg: Config, p: Parts, r: nat, k: nat)
    requires MadeAt(kind, r) && (r == 1 || r == 2 || r == 6 || r == 8) && (k == 3 || k == 5)
    ensures OfKind(kind, Addition(cfg, p, k)) == if k == StageFor(r) then Part(p, r) else []
  {
    if k == 3 {
      KindOfDrained(kind, p.drained, r);
    } else {
      KindOfQueues(kind, p.queues, r);
    }
  }

  lemma KindOfAddition(kind: Effect -> bool, cfg: Config, p: Parts, r: nat, k: nat)
    requires MadeAt(kind, r) && (r == 1 || r == 2 || r == 6 || r == 8) && k < 7
    ensures OfKind(kind, Addition(cfg, p, k)) == if k == StageFor(r) then Part(p, r) else []
  {
    if k < 3 {
      KindOfHookLoops(kind, cfg, p, r, k);
    } else if k == 4 || k == 6 {
      KindOfSingle(kind, cfg, p, r, k);
    } else {
      KindOfQueueLoops(kind, cfg, p, r, k);
    }
  }

  /** Of what is added, only that of stage `at` has calls of this kind, and these are `part`. */
  ghost predicate OnlyAdds(kind: Effect -> bool, add: nat -> seq<Effect>, part: seq<Effect>, at: nat) {
    forall k: nat :: k < 7 ==> OfKind(kind, add(k)) == if k == at then part else []
  }

  /** The stages from that one on have them. */
  lemma {:induction false} KindOfSum(kind: Effect -> bool, add: nat -> seq<Effect>, part: seq<Effect>, at: nat, k: nat)
    requires OnlyAdds(kind, add, part, at) && k < 7
    ensures OfKind(kind, Sum(add, k)) == if k >= at then part else []
  {
    if k > 0 {
      KindOfSum(kind, add, part, at, k - 1);
      KindConcat(kind, Sum(add, k - 1), add(k));
    }
  }

  lemma KindOfBefore(kind: Effect -> bool, cfg: Config, phase: Phase, p: Parts, r: nat)
    requires MadeAt(kind, r) && (r == 1 || r == 2 || r == 6 || r == 8) && Rank(phase) > r
    ensures OfKind(kind, Before(cfg, phase, p)) == Part(p, r)
  {
    var add := (n: nat) => Addition(cfg, p, n);
    forall k: nat | k < 7 ensures OfKind(kind, add(k)) == if k == StageFor(r) then Part(p, r) else [] {
      KindOfAddition(kind, cfg, p, r, k);
    }
    BeforeIsStage(cfg, phase, p);
    KindOfSum(kind, add, Part(p, r), StageFor(r), StageOf(Rank(phase)));
  }

  /** The calls of each kind in the log, once their loop is over. */
  lemma KindsLogged(s: State)
    requires InOrder(s)
    ensures Rank(s.life.phase) > 1 ==> OfKind(ClosesAWorker, s.net.log) == All(ClosesWorker, s.life.snapshot)
    ensures Rank(s.life.phase) > 2 ==> OfKind(ClosesSomeEvents, s.net.log) == All(ClosesEvents, s.life.history.events)
    ensures Rank(s.life.phase) > 6 ==> OfKind(DrainsAQueue, s.net.log) == All(Drains, s.life.history.drained)
    ensures Rank(s.life.phase) > 8 ==> OfKind(ClosesAQueue, s.net.log) == All(ClosesQueue, s.life.history.queues)
  {
    if Rank(s.life.phase) > 1 {
      LoggedKind(ClosesAWorker, s, 1);
      KindOfBefore(ClosesAWorker, s.cfg, s.life.phase, PartsOf(s.life), 1);
    }
    if Rank(s.life.phase) > 2 {
      LoggedKind(ClosesSomeEvents, s, 2);
      KindOfBefore(ClosesSomeEvents, s.cfg, s.life.phase, PartsOf(s.life), 2);
    }
    if Rank(s.life.phase) > 6 {
      LoggedKind(DrainsAQueue, s, 6);
      KindOfBefore(DrainsAQueue, s.cfg, s.life.phase, PartsOf(s.life), 6);
    }
    if Rank(s.life.phase) > 8 {
      LoggedKind(ClosesAQueue, s, 8);
      KindOfBefore(ClosesAQueue, s.cfg, s.life.phase, PartsOf(s.life), 8);
    }
  }

  lemma {:induction false} EachAt<T>(f: T -> Effect, xs: seq<T>, n: nat)
    requires n <= |xs|
    ensures |Each(f, xs, n)| == n && forall i :: 0 <= i < n ==> Each(f, xs, n)[i] == f(xs[i])
  {
    if n > 0 {
      EachAt(f, xs, n - 1);
    }
  }
}
