/** The TTL cache over `getMetrics`. A `get` that misses suspends while it fetches, so fetches of
    one queue may overlap each other, later gets and invalidations. */
module MetricsServices {
  import opened Wrappers

  /** One answer of `getMetrics`: which call fetched it, for which queue, when it completed. */
  datatype Snapshot = Snapshot(queue: string, fetchedBy: nat, completedAt: nat, counts: seq<int>)

  datatype CacheEntry = CacheEntry(metrics: Snapshot, expiresAt: nat)

  datatype Fetch = Fetch(queue: string, calledAt: nat)

  /** A `get` that returned: what it was asked, when, and what it answered. */
  datatype Served = Served(call: nat, queue: string, calledAt: nat, metrics: Snapshot)

  datatype Metrics = Metrics(
    enabled: bool, ttl: nat, clock: nat, cache: map<string, CacheEntry>, fetches: map<nat, Fetch>,
    nextCall: nat, served: seq<Served>)

  datatype Event =
    | Get(queue: string)
    | GetAll(queues: seq<string>)
    | FetchEnds(call: nat, counts: Option<seq<int>>)
    | Invalidate(which: Option<string>)
    | Tick(ms: nat)

  predicate Fresh(m: Metrics, queue: string) {
    queue in m.cache && m.cache[queue].expiresAt > m.clock
  }

  /** From the call of `get` to its first `await`, or to its return on a hit. */
  function GetStep(m: Metrics, queue: string): Metrics {
    if !m.enabled then m
    else if Fresh(m, queue) then
      m.(nextCall := m.nextCall + 1,
         served := m.served + [Served(m.nextCall, queue, m.clock, m.cache[queue].metrics)])
    else
      m.(nextCall := m.nextCall + 1, fetches := m.fetches[m.nextCall := Fetch(queue, m.clock)])
  }

  /** `getAll` starts one `get` per name the queue cache holds, before any of them awaits. */
  function GetAllStep(m: Metrics, queues: seq<string>): Metrics
    decreases |queues|
  {
    if queues == [] then m else GetAllStep(GetStep(m, queues[0]), queues[1..])
  }

  /** The fetch of `call` ends: `None` when `getMetrics` rejected. */
  function FetchEndsStep(m: Metrics, call: nat, counts: Option<seq<int>>): Metrics {
    if call !in m.fetches then m
    else
      var f := m.fetches[call];
      var rest := m.(fetches := m.fetches - {call});
      match counts
      case None => rest
      case Some(answer) =>
        var snapshot := Snapshot(f.queue, call, m.clock, answer);
        rest.(cache := m.cache[f.queue := CacheEntry(snapshot, m.clock + m.ttl)],
              served := m.served + [Served(call, f.queue, f.calledAt, snapshot)])
  }

  function InvalidateStep(m: Metrics, which: Option<string>): Metrics {
    if !m.enabled then m
    else
      match which
      case None => m.(cache := map[])
      case Some(queue) => m.(cache := m.cache - {queue})
  }

  function Step(m: Metrics, e: Event): Metrics {
    match e
    case Get(queue) => GetStep(m, queue)
    case GetAll(queues) => if m.enabled then GetAllStep(m, queues) else m
    case FetchEnds(call, counts) => FetchEndsStep(m, call, counts)
    case Invalidate(which) => InvalidateStep(m, which)
    case Tick(ms) => m.(clock := m.clock + ms)
  }

  function Run(m: Metrics, es: seq<Event>): Metrics
    decreases |es|
  {
    if es == [] then m else Run(Step(m, es[0]), es[1..])
  }

  function Start(enabled: bool, ttl: nat): Metrics {
    Metrics(enabled, ttl, 0, map[], map[], 0, [])
  }

  class MetricsService {
    const enabled: bool
    const ttl: nat
    var clock: nat
    var cache: map<string, CacheEntry>
    var fetches: map<nat, Fetch>
    var nextCall: nat
    var served: seq<Served>

    constructor (enabled: bool, ttl: nat)
      ensures Model() == Start(enabled, ttl)
    {
      this.enabled, this.ttl := enabled, ttl;
      clock, cache, fetches, nextCall, served := 0, map[], map[], 0, [];
    }

    ghost function Model(): Metrics
      reads this
    {
      Metrics(enabled, ttl, clock, cache, fetches, nextCall, served)
    }

    /** `ok` is false when the service throws `METRICS_DISABLED`. */
    method GetQueue(queue: string) returns (ok: bool)
      modifies this
      ensures ok == enabled && Model() == GetStep(old(Model()), queue)
    {
      if !enabled {
        return false;
      }
      if queue in cache && cache[queue].expiresAt > clock {
        served := served + [Served(nextCall, queue, clock, cache[queue].metrics)];
      } else {
        fetches := fetches[nextCall := Fetch(queue, clock)];
      }
      nextCall := nextCall + 1;
      return true;
    }

    method GetAllQueues(queues: seq<string>) returns (ok: bool)
      modifies this
      ensures ok == enabled && Model() == Step(old(Model()), GetAll(queues))
    {
      if !enabled {
        return false;
      }
      ghost var start := Model();
      var i := 0;
      while i < |queues|
        invariant i <= |queues|
        invariant GetAllStep(start, queues) == GetAllStep(Model(), queues[i..])
      {
        var _ := GetQueue(queues[i]);
        assert queues[i..][1..] == queues[i + 1..];
        i := i + 1;
      }
      return true;
    }

    method EndFetch(call: nat, counts: Option<seq<int>>)
      modifies this
      ensures Model() == FetchEndsStep(old(Model()), call, counts)
    {
      if call in fetches {
        var f := fetches[call];
        fetches := fetches - {call};
        if counts.Some? {
          var snapshot := Snapshot(f.queue, call, clock, counts.value);
          cache := cache[f.queue := CacheEntry(snapshot, clock + ttl)];
          served := served + [Served(call, f.queue, f.calledAt, snapshot)];
        }
      }
    }

    method InvalidateCache(which: Option<string>) returns (ok: bool)
      modifies this
      ensures ok == enabled && Model() == InvalidateStep(old(Model()), which)
    {
      if !enabled {
        return false;
      }
      cache := if which.Some? then cache - {which.value} else map[];
      return true;
    }
  }

  // ---- What a served snapshot is ----

  ghost predicate CacheOk(m: Metrics) {
    forall q :: q in m.cache ==>
      && m.cache[q].metrics.queue == q
      && m.cache[q].metrics.completedAt <= m.clock
      && m.cache[q].expiresAt == m.cache[q].metrics.completedAt + m.ttl
  }

  /** A call's own fetch, or one that completed less than a TTL before the call. */
  predicate Justified(r: Served, ttl: nat) {
    && r.metrics.queue == r.queue
    && (r.metrics.fetchedBy == r.call || r.metrics.completedAt <= r.calledAt < r.metrics.completedAt + ttl)
  }

  ghost predicate ServedOk(m: Metrics) {
    forall k :: 0 <= k < |m.served| ==> Justified(m.served[k], m.ttl)
  }

  ghost predicate CallsOk(m: Metrics) {
    && (forall c :: c in m.fetches ==> c < m.nextCall && m.fetches[c].calledAt <= m.clock)
    && (forall q :: q in m.cache ==> m.cache[q].metrics.fetchedBy < m.nextCall)
    && (forall k :: 0 <= k < |m.served| ==> m.served[k].call < m.nextCall && m.served[k].call !in m.fetches)
    && (m.fetches != map[] || m.served != [] ==> m.enabled)
  }

  ghost predicate Consistent(m: Metrics) {
    CacheOk(m) && ServedOk(m) && CallsOk(m)
  }

  lemma GetKeeps(m: Metrics, queue: string)
    requires Consistent(m)
    ensures Consistent(GetStep(m, queue))
  {
  }

  lemma {:induction false} GetAllKeeps(m: Metrics, queues: seq<string>)
    requires Consistent(m)
    ensures Consistent(GetAllStep(m, queues))
    decreases |queues|
  {
    if queues != [] {
      GetKeeps(m, queues[0]);
      GetAllKeeps(GetStep(m, queues[0]), queues[1..]);
    }
  }

  lemma StepKeeps(m: Metrics, e: Event)
    requires Consistent(m)
    ensures Consistent(Step(m, e))
  {
    match e
    case Get(queue) => GetKeeps(m, queue);
    case GetAll(queues) => GetAllKeeps(m, queues);
    case _ =>
  }

  lemma {:induction false} RunKeeps(m: Metrics, es: seq<Event>)
    requires Consistent(m)
    ensures Consistent(Run(m, es))
    decreases |es|
  {
    if es != [] {
      StepKeeps(m, es[0]);
      RunKeeps(Step(m, es[0]), es[1..]);
    }
  }

  /** Every snapshot a `get` returns is for the queue it asked for, and was fetched by that call
      or by one that completed within the TTL before it; with a TTL of 0 always by that call. */
  lemma ServedSnapshotsAreJustified(enabled: bool, ttl: nat, es: seq<Event>, r: Served)
    requires r in Run(Start(enabled, ttl), es).served
    ensures Justified(r, ttl) && enabled
    ensures ttl == 0 ==> r.metrics.fetchedBy == r.call
  {
    RunKeeps(Start(enabled, ttl), es);
    RunParameters(Start(enabled, ttl), es);
    var m := Run(Start(enabled, ttl), es);
    var k :| 0 <= k < |m.served| && m.served[k] == r;
    assert Justified(m.served[k], ttl);
  }

  lemma {:induction false} GetAllParameters(m: Metrics, queues: seq<string>)
    ensures var m' := GetAllStep(m, queues);
            m'.enabled == m.enabled && m'.ttl == m.ttl && m'.clock == m.clock && m'.cache == m.cache
    decreases |queues|
  {
    if queues != [] {
      GetAllParameters(GetStep(m, queues[0]), queues[1..]);
    }
  }

  lemma {:induction false} RunParameters(m: Metrics, es: seq<Event>)
    ensures Run(m, es).enabled == m.enabled && Run(m, es).ttl == m.ttl
    decreases |es|
  {
    if es != [] {
      if es[0].GetAll? {
        GetAllParameters(m, es[0].queues);
      }
      RunParameters(Step(m, es[0]), es[1..]);
    }
  }

  /** Call number `call` asked for `queue`, and is fetching it or has returned. */
  ghost predicate Asked(m: Metrics, call: nat, queue: string) {
    || (call in m.fetches && m.fetches[call].queue == queue)
    || exists k :: 0 <= k < |m.served| && m.served[k].call == call && m.served[k].queue == queue
  }

  lemma AskedStays(m: Metrics, call: nat, asked: string, queue: string)
    requires Consistent(m) && call < m.nextCall && Asked(m, call, asked)
    ensures Asked(GetStep(m, queue), call, asked)
  {
    if k :| 0 <= k < |m.served| && m.served[k].call == call && m.served[k].queue == asked {
      assert GetStep(m, queue).served[k] == m.served[k];
    }
  }

  lemma {:induction false} AskedStaysAll(m: Metrics, call: nat, asked: string, queues: seq<string>)
    requires Consistent(m) && call < m.nextCall && Asked(m, call, asked)
    ensures Asked(GetAllStep(m, queues), call, asked)
    decreases |queues|
  {
    if queues != [] {
      AskedStays(m, call, asked, queues[0]);
      GetKeeps(m, queues[0]);
      AskedStaysAll(GetStep(m, queues[0]), call, asked, queues[1..]);
    }
  }

  /** `getAll` asks once for each name it was given, in order: its `i`-th call is for the `i`-th
      name, so the snapshots its promises resolve with line up with the names. */
  lemma {:induction false} GetAllAsksEach(m: Metrics, queues: seq<string>, i: nat)
    requires Consistent(m) && m.enabled && i < |queues|
    ensures GetAllStep(m, queues).nextCall == m.nextCall + |queues|
    ensures Asked(GetAllStep(m, queues), m.nextCall + i, queues[i])
    decreases |queues|
  {
    var m' := GetStep(m, queues[0]);
    GetKeeps(m, queues[0]);
    if i == 0 {
      assert m'.served != m.served ==> m'.served[|m.served|].call == m.nextCall;
      AskedStaysAll(m', m.nextCall, queues[0], queues[1..]);
      if |queues| > 1 {
        GetAllAsksEach(m', queues[1..], 0);
      }
    } else {
      GetAllAsksEach(m', queues[1..], i - 1);
    }
  }

  // ---- When a get is served ----

  lemma {:induction false} RunSnoc(m: Metrics, es: seq<Event>, e: Event)
    ensures Run(m, es + [e]) == Step(Run(m, es), e)
    decreases |es|
  {
    if es == [] {
      assert [] + [e] == [e] && [e][1..] == [];
    } else {
      assert (es + [e])[1..] == es[1..] + [e];
      RunSnoc(Step(m, es[0]), es[1..], e);
    }
  }

  function Before(m: Metrics, es: seq<Event>, n: nat): Metrics
    requires n <= |es|
  {
    Run(m, es[..n])
  }

  /** Event `n` of the run is a fetch of `queue` that ends with an answer. */
  predicate Answers(m: Metrics, es: seq<Event>, n: nat, queue: string) {
    && n < |es| && es[n].FetchEnds? && es[n].counts.Some?
    && es[n].call in Before(m, es, n).fetches && Before(m, es, n).fetches[es[n].call].queue == queue
  }

  predicate Covers(which: Option<string>, queue: string) {
    which == None || which == Some(queue)
  }

  predicate Drops(es: seq<Event>, k: nat, queue: string) {
    k < |es| && es[k].Invalidate? && Covers(es[k].which, queue)
  }

  /** No later fetch of `queue` has answered, and no invalidation that covers it has been called. */
  ghost predicate LastAnswer(m: Metrics, es: seq<Event>, n: nat, queue: string) {
    && Answers(m, es, n, queue)
    && forall k :: n < k < |es| ==> !Answers(m, es, k, queue) && !Drops(es, k, queue)
  }

  function AnswerAt(m: Metrics, es: seq<Event>, n: nat, queue: string): Snapshot
    requires Answers(m, es, n, queue)
  {
    Snapshot(queue, es[n].call, Before(m, es, n).clock, es[n].counts.value)
  }

  /** What the cache holds for `queue` is the last answer. */
  ghost predicate HoldsLast(m: Metrics, es: seq<Event>, queue: string) {
    && (queue in Run(m, es).cache ==> exists n :: LastAnswer(m, es, n, queue))
    && forall n :: LastAnswer(m, es, n, queue) ==>
         && queue in Run(m, es).cache
         && Run(m, es).cache[queue]
            == CacheEntry(AnswerAt(m, es, n, queue), AnswerAt(m, es, n, queue).completedAt + m.ttl)
  }

  lemma AnswersBefore(m: Metrics, es: seq<Event>, e: Event, n: nat, queue: string)
    requires n < |es|
    ensures Answers(m, es + [e], n, queue) == Answers(m, es, n, queue)
    ensures Drops(es + [e], n, queue) == Drops(es, n, queue)
    ensures Before(m, es + [e], n) == Before(m, es, n)
  {
    assert (es + [e])[..n] == es[..n];
  }

  /** An event that neither answers nor drops leaves the entry alone. */
  lemma EntryStays(m: Metrics, e: Event, queue: string)
    requires !(e.FetchEnds? && e.counts.Some? && e.call in m.fetches && m.fetches[e.call].queue == queue)
    requires !(e.Invalidate? && Covers(e.which, queue))
    ensures queue in Step(m, e).cache <==> queue in m.cache
    ensures queue in m.cache ==> Step(m, e).cache[queue] == m.cache[queue]
  {
    if e.GetAll? {
      GetAllParameters(m, e.queues);
    }
  }

  lemma QuietLast(m: Metrics, es: seq<Event>, e: Event, queue: string)
    requires HoldsLast(m, es, queue)
    requires !Answers(m, es + [e], |es|, queue) && !Drops(es + [e], |es|, queue)
    ensures HoldsLast(m, es + [e], queue)
  {
    var all, k := es + [e], |es|;
    RunSnoc(m, es, e);
    assert all[..k] == es && all[k] == e;
    EntryStays(Run(m, es), e, queue);
    forall n: nat | n < k ensures LastAnswer(m, all, n, queue) == LastAnswer(m, es, n, queue) {
      SameLast(m, es, e, n, queue);
    }
    forall n: nat | LastAnswer(m, all, n, queue) ensures AnswerAt(m, all, n, queue) == AnswerAt(m, es, n, queue) {
      AnswersBefore(m, es, e, n, queue);
    }
  }

  lemma SameLast(m: Metrics, es: seq<Event>, e: Event, n: nat, queue: string)
    requires n < |es| && !Answers(m, es + [e], |es|, queue) && !Drops(es + [e], |es|, queue)
    ensures LastAnswer(m, es + [e], n, queue) == LastAnswer(m, es, n, queue)
  {
    forall k: nat | n <= k < |es|
      ensures Answers(m, es + [e], k, queue) == Answers(m, es, k, queue)
      ensures Drops(es + [e], k, queue) == Drops(es, k, queue)
    {
      AnswersBefore(m, es, e, k, queue);
    }
  }

  lemma AnswerIsLast(m: Metrics, es: seq<Event>, e: Event, queue: string)
    requires Answers(m, es + [e], |es|, queue) && Run(m, es).ttl == m.ttl
    ensures HoldsLast(m, es + [e], queue)
  {
    var all, k := es + [e], |es|;
    RunSnoc(m, es, e);
    assert all[..k] == es && all[k] == e;
    assert LastAnswer(m, all, k, queue);
    forall n: nat | LastAnswer(m, all, n, queue) ensures n == k {
    }
  }

  lemma DropLeavesNone(m: Metrics, es: seq<Event>, e: Event, queue: string)
    requires Drops(es + [e], |es|, queue) && Run(m, es).enabled
    ensures HoldsLast(m, es + [e], queue)
  {
    var all, k := es + [e], |es|;
    RunSnoc(m, es, e);
    assert all[k] == e && Drops(all, k, queue);
    assert forall n: nat :: n < k ==> !LastAnswer(m, all, n, queue);
  }

  lemma {:induction false} RunHoldsLast(m: Metrics, es: seq<Event>, queue: string)
    requires m.enabled && m.cache == map[]
    ensures HoldsLast(m, es, queue)
    decreases |es|
  {
    if es != [] {
      var k := |es| - 1;
      var front, e := es[..k], es[k];
      assert es == front + [e];
      RunHoldsLast(m, front, queue);
      RunParameters(m, front);
      if Answers(m, front + [e], k, queue) {
        AnswerIsLast(m, front, e, queue);
      } else if Drops(front + [e], k, queue) {
        DropLeavesNone(m, front, e, queue);
      } else {
        QuietLast(m, front, e, queue);
      }
    }
  }

  /** The last answer for `queue` is there and less than a TTL old. */
  ghost predicate Usable(m: Metrics, es: seq<Event>, n: nat, queue: string) {
    LastAnswer(m, es, n, queue) && Run(m, es).clock < Before(m, es, n).clock + m.ttl
  }

  /** After any run, a `get` is answered at once, with the last answer a fetch of that queue gave,
      exactly when less than a TTL has passed since and no invalidation that covers the queue was
      called in between. Otherwise it starts a fetch, and nothing is served. */
  lemma GetIsServedIff(ttl: nat, es: seq<Event>, queue: string)
    ensures var start := Start(true, ttl);
            var m, m' := Run(start, es), Run(start, es + [Get(queue)]);
            && (forall n :: Usable(start, es, n, queue) ==>
                  && m'.fetches == m.fetches
                  && m'.served == m.served + [Served(m.nextCall, queue, m.clock, AnswerAt(start, es, n, queue))])
            && ((forall n :: !Usable(start, es, n, queue)) ==>
                  && m'.fetches == m.fetches[m.nextCall := Fetch(queue, m.clock)]
                  && m'.served == m.served)
  {
    var start := Start(true, ttl);
    RunHoldsLast(start, es, queue);
    RunSnoc(start, es, Get(queue));
    RunParameters(start, es);
    if Fresh(Run(start, es), queue) {
      var n :| LastAnswer(start, es, n, queue);
      assert Usable(start, es, n, queue);
    }
  }

  // ---- What an invalidation promises ----

  /** A fetch of a queue the invalidation covers has not returned. */
  ghost predicate FetchInFlight(m: Metrics, which: Option<string>) {
    exists c :: c in m.fetches && Covers(which, m.fetches[c].queue)
  }

  /** Nothing fetched by a call before number `from` can be served for a covered queue any more,
      and nothing has been since. */
  ghost predicate Renewed(m: Metrics, which: Option<string>, from: nat) {
    && from <= m.nextCall
    && (forall q :: q in m.cache && Covers(which, q) ==> m.cache[q].metrics.fetchedBy >= from)
    && (forall c :: c in m.fetches && Covers(which, m.fetches[c].queue) ==> c >= from)
    && NoneStale(m, which, from)
  }

  /** Every call from number `from` on that asked for a covered queue got a snapshot whose fetch
      began no earlier than call `from`. */
  ghost predicate NoneStale(m: Metrics, which: Option<string>, from: nat) {
    forall k :: 0 <= k < |m.served| && m.served[k].call >= from && Covers(which, m.served[k].queue)
                ==> m.served[k].metrics.fetchedBy >= from
  }

  lemma GetRenews(m: Metrics, queue: string, which: Option<string>, from: nat)
    requires Renewed(m, which, from)
    ensures Renewed(GetStep(m, queue), which, from)
  {
  }

  lemma {:induction false} GetAllRenews(m: Metrics, queues: seq<string>, which: Option<string>, from: nat)
    requires Renewed(m, which, from)
    ensures Renewed(GetAllStep(m, queues), which, from)
    decreases |queues|
  {
    if queues != [] {
      GetRenews(m, queues[0], which, from);
      GetAllRenews(GetStep(m, queues[0]), queues[1..], which, from);
    }
  }

  lemma {:induction false} RunRenews(m: Metrics, es: seq<Event>, which: Option<string>, from: nat)
    requires Renewed(m, which, from)
    ensures Renewed(Run(m, es), which, from)
    decreases |es|
  {
    if es != [] {
      match es[0] {
        case Get(queue) => GetRenews(m, queue, which, from);
        case GetAll(queues) => GetAllRenews(m, queues, which, from);
        case _ =>
      }
      RunRenews(Step(m, es[0]), es[1..], which, from);
    }
  }

  /** A fetch that was in flight when the cache was invalidated puts its older snapshot back, and
      the next `get` within the TTL is served it. */
  lemma LateFetchIsServed(m: Metrics, which: Option<string>, c: nat)
    requires Consistent(m) && m.enabled && m.ttl > 0 && c in m.fetches && Covers(which, m.fetches[c].queue)
    ensures var es := [FetchEnds(c, Some([])), Get(m.fetches[c].queue)];
            !NoneStale(Run(InvalidateStep(m, which), es), which, m.nextCall)
  {
    var q := m.fetches[c].queue;
    var m0 := InvalidateStep(m, which);
    var m1 := FetchEndsStep(m0, c, Some([]));
    var m2 := GetStep(m1, q);
    assert [FetchEnds(c, Some([])), Get(q)][1..] == [Get(q)];
    assert Run(m1, [Get(q)]) == m2;
    assert Run(m0, [FetchEnds(c, Some([])), Get(q)]) == m2;
    assert Fresh(m1, q);
    var last := m2.served[|m2.served| - 1];
    assert last.call == m.nextCall && last.metrics.fetchedBy == c;
  }

  /** With a TTL of 0 nothing is ever served from the cache. */
  lemma {:induction false} ZeroTtlIsNeverStale(m: Metrics, es: seq<Event>, which: Option<string>, from: nat)
    requires Consistent(m) && m.ttl == 0 && NoneStale(m, which, from)
    ensures NoneStale(Run(m, es), which, from)
  {
    RunKeeps(m, es);
    RunParameters(m, es);
    var m' := Run(m, es);
    forall k | 0 <= k < |m'.served| && m'.served[k].call >= from ensures m'.served[k].metrics.fetchedBy >= from {
      assert Justified(m'.served[k], 0);
    }
  }

  /** After any run, invalidating a queue (or all of them) means that, whatever follows, no later
      `get` of it is answered with a snapshot fetched before the invalidation, exactly when the
      TTL is 0 or no fetch of it is in flight. */
  lemma InvalidateRefetchesIff(ttl: nat, before: seq<Event>, which: Option<string>)
    ensures var m := Run(Start(true, ttl), before);
            (forall es :: NoneStale(Run(InvalidateStep(m, which), es), which, m.nextCall))
            <==> ttl == 0 || !FetchInFlight(m, which)
  {
    var m := Run(Start(true, ttl), before);
    RunKeeps(Start(true, ttl), before);
    RunParameters(Start(true, ttl), before);
    StepKeeps(m, Invalidate(which));
    var m' := InvalidateStep(m, which);
    if ttl == 0 {
      forall es ensures NoneStale(Run(m', es), which, m.nextCall) {
        ZeroTtlIsNeverStale(m', es, which, m.nextCall);
      }
    } else if FetchInFlight(m, which) {
      var c :| c in m.fetches && Covers(which, m.fetches[c].queue);
      LateFetchIsServed(m, which, c);
    } else {
      forall es ensures NoneStale(Run(m', es), which, m.nextCall) {
        RunRenews(m', es, which, m.nextCall);
      }
    }
  }
}
