/** When a shutdown hook returns. Two of its loops follow maps that grow while they run, so whether
    it does is decided by the calls made meanwhile: by how many different queues they observe or use,
    and how early. Nothing else matters, neither what else is called nor how the awaited calls end. */
module LiveLoops {
  import opened JsMaps
  import opened ConnectionResolvers
  import opened QueueLifecycles
  import opened Runtimes
  import opened HookCompletion

  // ---- A cursor chasing the end of a list that grows ----

  /** The cursor stands at position `p`, two for each element: it leaves in round `k` if it is at a
      loop head and the list, after the calls of that round, has no element there. */
  predicate LeavesNow(sizes: nat -> nat, k: nat, p: nat) {
    p % 2 == 0 && 2 * sizes(k + 1) <= p
  }

  /** Where loop `r` goes on from position `p` while its list has `size` elements. */
  function NextAt(size: nat, r: nat, p: nat): (nat, nat) {
    if p % 2 == 0 && 2 * size <= p then (r + 1, 0) else (r, p + 1)
  }

  /** The same in round `k`. */
  function NextIn(sizes: nat -> nat, r: nat, k: nat, p: nat): (nat, nat) {
    NextAt(sizes(k + 1), r, p)
  }

  /** A cursor that started in round `t` at position `p` leaves `n` rounds later. */
  predicate CaughtAt(sizes: nat -> nat, t: nat, p: nat, n: nat) {
    LeavesNow(sizes, t + n, p + n)
  }

  /** Sooner or later it catches up with the list. */
  ghost predicate Catches(sizes: nat -> nat, t: nat, p: nat) {
    exists n: nat :: CaughtAt(sizes, t, p, n)
  }

  /** It does so `n` rounds later, and not before. */
  ghost predicate CatchesAfter(sizes: nat -> nat, t: nat, p: nat, n: nat) {
    CaughtAt(sizes, t, p, n) && forall m: nat :: m < n ==> !CaughtAt(sizes, t, p, m)
  }

  /** `trace` gives, round by round, which loop a hook is in and where: in loop `r` it follows a
      list of these sizes. */
  ghost predicate Follows(trace: nat -> (nat, nat), sizes: nat -> nat, r: nat) {
    forall k: nat :: trace(k).0 == r ==> trace(k + 1) == NextIn(sizes, r, k, trace(k).1)
  }

  lemma {:induction false} StaysInLoop(trace: nat -> (nat, nat), sizes: nat -> nat, r: nat, t: nat, p: nat, n: nat)
    requires Follows(trace, sizes, r) && trace(t) == (r, p)
    requires forall m: nat :: m < n ==> !CaughtAt(sizes, t, p, m)
    ensures trace(t + n) == (r, p + n)
  {
    if n > 0 {
      StaysInLoop(trace, sizes, r, t, p, n - 1);
      assert !CaughtAt(sizes, t, p, n - 1);
      assert trace(t + (n - 1) + 1) == (r, p + n);
    }
  }

  lemma LeavesLoop(trace: nat -> (nat, nat), sizes: nat -> nat, r: nat, t: nat, p: nat, n: nat)
    requires Follows(trace, sizes, r) && trace(t) == (r, p) && CatchesAfter(sizes, t, p, n)
    ensures trace(t + n + 1) == (r + 1, 0)
  {
    StaysInLoop(trace, sizes, r, t, p, n);
  }

  lemma FirstCatch(sizes: nat -> nat, t: nat, p: nat, late: nat) returns (n: nat)
    requires CaughtAt(sizes, t, p, late)
    ensures CatchesAfter(sizes, t, p, n)
  {
    if m: nat :| m < late && CaughtAt(sizes, t, p, m) {
      n := FirstCatch(sizes, t, p, m);
    } else {
      n := late;
    }
  }

  /** A list that stops growing is caught. */
  lemma BoundedIsCaught(sizes: nat -> nat, most: nat, t: nat, p: nat)
    requires forall k: nat :: sizes(k) <= most
    ensures Catches(sizes, t, p)
  {
    var n := 2 * most + p % 2;
    assert (p + n) % 2 == 0;
    assert CaughtAt(sizes, t, p, n);
  }

  // ---- The names the calls bring in ----

  /** The queues some calls observe, of those whose `QueueEvents` can be built. */
  function Watched(es: seq<Event>): set<string> {
    if es == [] then {}
    else (if es[0].Observe? && es[0].constructs then {es[0].name} else {}) + Watched(es[1..])
  }

  /** The queues some calls use, of those whose `Queue` can be built. */
  function Used(es: seq<Event>): set<string> {
    if es == [] then {}
    else (if es[0].Use? && es[0].constructs then {es[0].name} else {}) + Used(es[1..])
  }

  /** What the calls before the first `n` turns watch. */
  function WatchedBefore(sch: Schedule, n: nat): set<string> {
    if n == 0 then {} else WatchedBefore(sch, n - 1) + Watched(sch.calls(n - 1))
  }

  function UsedBefore(sch: Schedule, n: nat): set<string> {
    if n == 0 then {} else UsedBefore(sch, n - 1) + Used(sch.calls(n - 1))
  }

  function KeySet<V>(m: JsMap<string, V>): set<string> {
    set i | 0 <= i < |m| && m[i].Full? :: m[i].key
  }

  /** How many queues are observed after those calls. */
  function EventSizes(s: State, sch: Schedule): nat -> nat {
    (n: nat) => |KeySet(s.events.events) + WatchedBefore(sch, n)|
  }

  /** How many queues are cached after those calls. */
  function QueueSizes(s: State, sch: Schedule): nat -> nat {
    (n: nat) => |KeySet(s.cache.queues) + UsedBefore(sch, n)|
  }

  /** Every slot holds a name of its own. */
  ghost predicate Counted<V>(m: JsMap<string, V>) {
    |KeySet(m)| == |m|
  }

  lemma HasIsKey<V>(m: JsMap<string, V>, k: string)
    ensures Has(m, k) <==> k in KeySet(m)
  {
    if i :| 0 <= i < |m| && m[i].Full? && m[i].key == k {
      assert Find(m, k) <= i;
    }
    assert Has(m, k) ==> m[Find(m, k)].key == k;
  }

  lemma SetIsCounted<V>(m: JsMap<string, V>, k: string, v: V)
    requires Counted(m) && !Has(m, k)
    ensures Counted(Set(m, k, v)) && KeySet(Set(m, k, v)) == KeySet(m) + {k}
  {
    HasIsKey(m, k);
    var m' := Set(m, k, v);
    assert forall i :: 0 <= i < |m| ==> m'[i] == m[i];
    assert m'[|m|] == Full(k, v);
    assert KeySet(m') == KeySet(m) + {k};
  }

  ghost predicate AllCounted(s: State) {
    Counted(s.events.events) && (Rank(s.life.phase) < 9 ==> Counted(s.cache.queues))
  }

  lemma ObserveNames(s: State, name: string, constructs: bool)
    requires AllCounted(s)
    ensures var s' := Step(s, Observe(name, constructs));
            && AllCounted(s')
            && KeySet(s'.events.events) == KeySet(s.events.events) + (if constructs then {name} else {})
  {
    HasIsKey(s.events.events, name);
    if !Has(s.events.events, name) && constructs {
      SetIsCounted(s.events.events, name, Step(s, Observe(name, constructs)).events.events[|s.events.events|].value);
    }
  }

  lemma UseNames(s: State, name: string, constructs: bool)
    requires AllCounted(s) && Rank(s.life.phase) < 9
    ensures var s' := Step(s, Use(name, constructs));
            && AllCounted(s')
            && KeySet(s'.cache.queues) == KeySet(s.cache.queues) + (if constructs then {name} else {})
  {
    HasIsKey(s.cache.queues, name);
    if !Has(s.cache.queues, name) && constructs {
      SetIsCounted(s.cache.queues, name, Step(s, Use(name, constructs)).cache.queues[|s.cache.queues|].value);
    }
  }

  lemma NamesOfOne(e: Event)
    ensures Watched([e]) == if e.Observe? && e.constructs then {e.name} else {}
    ensures Used([e]) == if e.Use? && e.constructs then {e.name} else {}
  {
    assert [e][1..] == [];
  }

  lemma OtherNames(s: State, e: Event)
    requires !LifecycleEvent(e)
    ensures Step(s, e).life == s.life && Step(s, e).cfg == s.cfg
    ensures !e.Observe? ==> Step(s, e).events == s.events
    ensures !e.Use? ==> Step(s, e).cache == s.cache
  {
  }

  /** From `s` to `t` only names came in: these to the observed queues and those to the cache. */
  ghost predicate Brings(s: State, t: State, watched: set<string>, used: set<string>) {
    && AllCounted(t) && t.life == s.life && t.cfg == s.cfg
    && KeySet(t.events.events) == KeySet(s.events.events) + watched
    && (Rank(s.life.phase) < 9 ==> KeySet(t.cache.queues) == KeySet(s.cache.queues) + used)
  }

  lemma BringsBoth(s: State, mid: State, t: State, w: set<string>, u: set<string>, w': set<string>, u': set<string>)
    requires Brings(s, mid, w, u) && Brings(mid, t, w', u')
    ensures Brings(s, t, w + w', u + u')
  {
  }

  lemma CallBrings(s: State, e: Event)
    requires AllCounted(s) && !LifecycleEvent(e)
    ensures Brings(s, Step(s, e), Watched([e]), Used([e]))
  {
    NamesOfOne(e);
    OtherNames(s, e);
    if e.Observe? {
      ObserveNames(s, e.name, e.constructs);
    } else if e.Use? && Rank(s.life.phase) < 9 {
      UseNames(s, e.name, e.constructs);
    }
  }

  lemma {:induction false} CallsBring(s: State, es: seq<Event>)
    requires Sound(s) && AllCounted(s) && OnlyCalls(es)
    ensures Sound(Run(s, es)) && Brings(s, Run(s, es), Watched(es), Used(es))
    decreases |es|
  {
    if es != [] {
      var s' := Step(s, es[0]);
      CallBrings(s, es[0]);
      StepKeepsSound(s, es[0]);
      CallsBring(s', es[1..]);
      NamesCons(es);
      BringsBoth(s, s', Run(s', es[1..]), Watched([es[0]]), Used([es[0]]), Watched(es[1..]), Used(es[1..]));
    }
  }

  lemma NamesCons(es: seq<Event>)
    requires es != []
    ensures Watched(es) == Watched([es[0]]) + Watched(es[1..]) && Used(es) == Used([es[0]]) + Used(es[1..])
  {
    assert [es[0]][1..] == [];
  }

  lemma HookNames(s: State, e: Event)
    requires AllCounted(s) && LifecycleEvent(e)
    ensures AllCounted(Step(s, e)) && Step(s, e).cfg == s.cfg
    ensures Step(s, e).events == s.events
    ensures Rank(Step(s, e).life.phase) < 9 ==> Step(s, e).cache == s.cache && Rank(s.life.phase) < 9
  {
  }

  lemma {:induction false} RunIsCounted(s: State, es: seq<Event>)
    requires AllCounted(s)
    ensures AllCounted(Run(s, es))
    decreases |es|
  {
    if es != [] {
      if LifecycleEvent(es[0]) {
        HookNames(s, es[0]);
      } else {
        CallBrings(s, es[0]);
      }
      RunIsCounted(Step(s, es[0]), es[1..]);
    }
  }

  // ---- Where a hook stands, round by round ----

  function Position(p: Phase): nat {
    match p
    case WorkerLoop(i, busy, _) => 2 * i + if busy then 1 else 0
    case EventsLoop(i, busy) => 2 * i + if busy then 1 else 0
    case DupeLoop(i, busy) => 2 * i + if busy then 1 else 0
    case DrainLoop(i, busy) => 2 * i + if busy then 1 else 0
    case QueueLoop(i, busy) => 2 * i + if busy then 1 else 0
    case Producer(busy) => if busy then 1 else 0
    case Role(busy) => if busy then 1 else 0
    case _ => 0
  }

  function Progress(s: State): (nat, nat) {
    (Rank(s.life.phase), Position(s.life.phase))
  }

  /** The length of what the loop a hook is in goes over. */
  function LoopSize(s: State): nat {
    match s.life.phase
    case WorkerLoop(_, _, _) => |s.life.snapshot|
    case EventsLoop(_, _) => |s.events.events|
    case DupeLoop(_, _) => |s.life.dupes|
    case DrainLoop(_, _) => |s.cache.queues|
    case QueueLoop(_, _) => |s.cache.queues|
    case _ => 0
  }

  predicate InLoop(p: Phase) {
    p.WorkerLoop? || p.EventsLoop? || p.DupeLoop? || p.DrainLoop? || p.QueueLoop?
  }

  /** Where the next turn takes the hook. */
  function NextProgress(s: State): (nat, nat) {
    var (rank, p) := Progress(s);
    if InLoop(s.life.phase) then
      if p % 2 == 0 && 2 * LoopSize(s) <= p then (rank + 1, 0) else (rank, p + 1)
    else if s.life.phase == Producer(false) && s.cfg.flows then (rank, 1)
    else if s.life.phase == Role(false) && s.cfg.mode == ModeB then (rank, 1)
    else (rank + 1, 0)
  }

  lemma AdvanceGoesOn(s: State)
    requires Sound(s) && !AtRest(s.life.phase) && !Busy(s.life.phase)
    ensures Progress(AdvanceStep(s)) == NextProgress(s)
  {
  }

  lemma SettleGoesOn(s: State, o: Outcome)
    requires Sound(s) && Busy(s.life.phase)
    requires o == TimedOut ==> s.life.phase.WorkerLoop? && s.net.clock >= s.life.phase.since + s.cfg.drainTimeout
    ensures Progress(SettleStep(s, o)) == NextProgress(s)
  {
  }

  /** What a turn leaves alone. */
  ghost predicate SameMaps(s: State, t: State) {
    && t.cfg == s.cfg && t.life.snapshot == s.life.snapshot && t.events == s.events
    && (Rank(t.life.phase) < 9 ==> t.cache == s.cache)
  }

  lemma StepKeepsMaps(s: State, e: Event)
    requires e.Advance? || e.Settle? || (e.Tick? && Step(s, e).life == s.life)
    ensures SameMaps(s, Step(s, e)) && Rank(s.life.phase) <= Rank(Step(s, e).life.phase)
  {
  }

  ghost predicate GoesOn(s: State, t: State) {
    Progress(t) == NextProgress(s) && SameMaps(s, t)
  }

  lemma HeadGoesOn(s: State)
    requires Sound(s) && !AtRest(s.life.phase) && !Busy(s.life.phase)
    ensures GoesOn(s, Run(s, [Advance]))
  {
    RunCons(s, Advance, []);
    AdvanceGoesOn(s);
    StepKeepsMaps(s, Advance);
  }

  lemma EndGoesOn(s: State, o: Outcome)
    requires Sound(s) && Busy(s.life.phase)
    requires o == TimedOut ==> s.life.phase.WorkerLoop? && s.net.clock >= s.life.phase.since + s.cfg.drainTimeout
    ensures GoesOn(s, Run(s, [Settle(o)]))
  {
    RunCons(s, Settle(o), []);
    SettleGoesOn(s, o);
    StepKeepsMaps(s, Settle(o));
  }

  lemma TimerGoesOn(s: State)
    requires Sound(s) && Busy(s.life.phase) && s.life.phase.WorkerLoop?
    ensures GoesOn(s, Run(s, [Tick(Wait(s)), Settle(TimedOut)]))
  {
    var wait := Tick(Wait(s));
    var t := Step(s, wait);
    WaitReachesTimer(s);
    StepKeepsSound(s, wait);
    StepKeepsMaps(s, wait);
    RunCons(s, wait, [Settle(TimedOut)]);
    EndGoesOn(t, TimedOut);
    WaitingGoesOn(s, t, Run(t, [Settle(TimedOut)]));
  }

  lemma WaitingGoesOn(s: State, t: State, u: State)
    requires s.life.phase.WorkerLoop? && t.life == s.life && SameMaps(s, t) && GoesOn(t, u)
    ensures GoesOn(s, u)
  {
  }

  /** One turn takes the hook where it was bound for, however the awaited call ends. */
  lemma TurnGoesOn(s: State, o: Outcome)
    requires Sound(s) && !AtRest(s.life.phase)
    ensures Sound(Run(s, TurnOf(s, o))) && GoesOn(s, Run(s, TurnOf(s, o)))
  {
    TurnBringsNearer(s, o);
    if !Busy(s.life.phase) {
      HeadGoesOn(s);
    } else if o != TimedOut {
      EndGoesOn(s, o);
    } else if s.life.phase.WorkerLoop? {
      TimerGoesOn(s);
    } else {
      EndGoesOn(s, Rejected);
    }
  }

  /** The state in round `n` after its calls and before its turn. */
  function Mid(t: State, sch: Schedule, n: nat): State {
    Run(t, sch.calls(n))
  }

  /** What `n` rounds from `s` have brought about, as long as the hook runs. */
  ghost predicate Reaches(s: State, t: State, watched: set<string>, used: set<string>) {
    && Sound(t) && AllCounted(t) && t.cfg == s.cfg && t.life.snapshot == s.life.snapshot
    && (!AtRest(t.life.phase) ==> KeySet(t.events.events) == KeySet(s.events.events) + watched)
    && (!AtRest(t.life.phase) && Rank(t.life.phase) < 9 ==> KeySet(t.cache.queues) == KeySet(s.cache.queues) + used)
  }

  lemma MidReaches(s: State, t: State, sch: Schedule, n: nat)
    requires Polite(sch) && !AtRest(t.life.phase) && Reaches(s, t, WatchedBefore(sch, n), UsedBefore(sch, n))
    ensures Reaches(s, Mid(t, sch, n), WatchedBefore(sch, n + 1), UsedBefore(sch, n + 1))
    ensures Mid(t, sch, n).life == t.life
  {
    CallsBring(t, sch.calls(n));
    Union(KeySet(s.events.events), WatchedBefore(sch, n), Watched(sch.calls(n)));
    Union(KeySet(s.cache.queues), UsedBefore(sch, n), Used(sch.calls(n)));
  }

  lemma Union<T>(a: set<T>, b: set<T>, c: set<T>)
    ensures a + b + c == a + (b + c)
  {
  }

  /** A round: its calls come in, then the hook goes on. */
  lemma RoundGoesOn(s: State, t: State, sch: Schedule, n: nat)
    requires Polite(sch) && Reaches(s, t, WatchedBefore(sch, n), UsedBefore(sch, n))
    ensures AtRest(t.life.phase) ==> Round(t, sch, n) == t
    ensures !AtRest(t.life.phase) ==> Progress(Round(t, sch, n)) == NextProgress(Mid(t, sch, n))
    ensures Reaches(s, Round(t, sch, n), WatchedBefore(sch, n + 1), UsedBefore(sch, n + 1))
  {
    if !AtRest(t.life.phase) {
      var mid := Mid(t, sch, n);
      MidReaches(s, t, sch, n);
      TurnGoesOn(mid, sch.ends(n));
      RunAppend(t, sch.calls(n), TurnOf(mid, sch.ends(n)));
      TurnReaches(s, mid, Round(t, sch, n), WatchedBefore(sch, n + 1), UsedBefore(sch, n + 1));
    }
  }

  lemma TurnReaches(s: State, mid: State, t: State, watched: set<string>, used: set<string>)
    requires Reaches(s, mid, watched, used) && !AtRest(mid.life.phase)
    requires Sound(t) && SameMaps(mid, t) && Progress(t) == NextProgress(mid)
    ensures Reaches(s, t, watched, used)
  {
  }

  lemma NothingYet(s: State, sch: Schedule)
    requires Sound(s) && AllCounted(s)
    ensures Reaches(s, s, WatchedBefore(sch, 0), UsedBefore(sch, 0))
  {
  }

  lemma DrivenReaches(s: State, sch: Schedule, n: nat)
    requires Sound(s) && AllCounted(s) && Polite(sch)
    ensures Reaches(s, Driven(s, sch, n), WatchedBefore(sch, n), UsedBefore(sch, n))
  {
    var inv := (t: State, k: nat) => Reaches(s, t, WatchedBefore(sch, k), UsedBefore(sch, k));
    NothingYet(s, sch);
    forall t, k: nat | inv(t, k) ensures inv(Rounds(sch)(t, k), k + 1) {
      RoundGoesOn(s, t, sch, k);
    }
    IteratedKeeps(Rounds(sch), inv, s, n);
  }

  // ---- The rounds of a hook, as a trace of loops and positions ----

  function Trace(s: State, sch: Schedule): nat -> (nat, nat) {
    (k: nat) => Progress(Driven(s, sch, k))
  }

  function Left(s: State, sch: Schedule): nat -> int {
    (k: nat) => Remaining(Driven(s, sch, k))
  }

  /** What round `k` does to the trace: the four loops follow their lists, the copy of the
      connections is gone through, and the steps between them take one turn or two. */
  predicate RoundOk(trace: nat -> (nat, nat), left: nat -> int, copied: nat,
                    events: nat -> nat, queues: nat -> nat, flows: bool, owned: bool, k: nat)
  {
    var (r, p) := trace(k);
    && Passes(trace(k), trace(k + 1), left(k), left(k + 1), flows, owned)
    && (r == 1 ==> trace(k + 1) == NextAt(copied, 1, p))
    && (r == 2 ==> trace(k + 1) == NextIn(events, 2, k, p))
    && (r == 6 || r == 8 ==> trace(k + 1) == NextIn(queues, r, k, p))
  }

  ghost predicate HookTrace(trace: nat -> (nat, nat), left: nat -> int, copied: nat,
                            events: nat -> nat, queues: nat -> nat, flows: bool, owned: bool)
  {
    forall k: nat :: RoundOk(trace, left, copied, events, queues, flows, owned, k)
  }

  function Constant(size: nat): nat -> nat {
    (n: nat) => size
  }

  /** What the rounds say of the four loops, the copy of the connections and the rest. */
  lemma WorkersFollow(trace: nat -> (nat, nat), left: nat -> int, copied: nat,
                      events: nat -> nat, queues: nat -> nat, flows: bool, owned: bool)
    requires HookTrace(trace, left, copied, events, queues, flows, owned)
    ensures Follows(trace, Constant(copied), 1)
  {
    var constant := Constant(copied);
    forall k: nat | trace(k).0 == 1 ensures trace(k + 1) == NextIn(constant, 1, k, trace(k).1) {
      assert RoundOk(trace, left, copied, events, queues, flows, owned, k);
    }
  }

  lemma EventsFollow(trace: nat -> (nat, nat), left: nat -> int, copied: nat,
                     events: nat -> nat, queues: nat -> nat, flows: bool, owned: bool)
    requires HookTrace(trace, left, copied, events, queues, flows, owned)
    ensures Follows(trace, events, 2)
  {
    forall k: nat | trace(k).0 == 2 ensures trace(k + 1) == NextIn(events, 2, k, trace(k).1) {
      assert RoundOk(trace, left, copied, events, queues, flows, owned, k);
    }
  }

  lemma QueuesFollow(trace: nat -> (nat, nat), left: nat -> int, copied: nat,
                     events: nat -> nat, queues: nat -> nat, flows: bool, owned: bool, r: nat)
    requires HookTrace(trace, left, copied, events, queues, flows, owned) && (r == 6 || r == 8)
    ensures Follows(trace, queues, r)
  {
    forall k: nat | trace(k).0 == r ensures trace(k + 1) == NextIn(queues, r, k, trace(k).1) {
      assert RoundOk(trace, left, copied, events, queues, flows, owned, k);
    }
  }

  lemma CopyFollows(trace: nat -> (nat, nat), left: nat -> int, copied: nat,
                    events: nat -> nat, queues: nat -> nat, flows: bool, owned: bool)
    requires HookTrace(trace, left, copied, events, queues, flows, owned)
    ensures forall k: nat :: trace(k).0 == 4 ==>
                               (trace(k + 1).0 == 4 || trace(k + 1).0 == 5) && 0 <= left(k + 1) < left(k)
  {
    forall k: nat | trace(k).0 == 4
      ensures (trace(k + 1).0 == 4 || trace(k + 1).0 == 5) && 0 <= left(k + 1) < left(k)
    {
      assert RoundOk(trace, left, copied, events, queues, flows, owned, k);
    }
  }

  lemma RestFollows(trace: nat -> (nat, nat), left: nat -> int, copied: nat,
                    events: nat -> nat, queues: nat -> nat, flows: bool, owned: bool)
    requires HookTrace(trace, left, copied, events, queues, flows, owned)
    ensures forall k: nat :: AtRestRank(trace(k).0) ==> trace(k + 1) == trace(k)
  {
    forall k: nat | AtRestRank(trace(k).0) ensures trace(k + 1) == trace(k) {
      assert RoundOk(trace, left, copied, events, queues, flows, owned, k);
    }
  }

  predicate Passes(now: (nat, nat), next: (nat, nat), left: int, leftNext: int, flows: bool, owned: bool) {
    && (now.0 == 3 ==> next.0 == 4)
    && (now.0 == 4 ==> (next.0 == 4 || next.0 == 5) && 0 <= leftNext < left)
    && (now.0 == 7 ==> next == if now.1 == 0 && flows then (7, 1) else (8, 0))
    && (now.0 == 9 ==> next == if now.1 == 0 && owned then (9, 1) else (10, 0))
    && (AtRestRank(now.0) ==> next == now)
  }

  predicate AtRestRank(r: nat) {
    r == 0 || r == 5 || r == 10
  }

  ghost predicate Ends(trace: nat -> (nat, nat)) {
    exists n: nat :: AtRestRank(trace(n).0)
  }

  ghost predicate Ready(s: State, sch: Schedule) {
    Sound(s) && AllCounted(s) && Polite(sch)
  }

  lemma AtRestIff(p: Phase)
    ensures AtRest(p) <==> AtRestRank(Rank(p))
  {
  }

  predicate LivePhase(p: Phase) {
    p.WorkerLoop? || p.EventsLoop? || p.DrainLoop? || p.QueueLoop?
  }

  lemma LiveByRank(p: Phase)
    ensures LivePhase(p) <==> Rank(p) == 1 || Rank(p) == 2 || Rank(p) == 6 || Rank(p) == 8
  {
  }

  /** The length of the list a loop follows once these names have come in. */
  function SizeWith(s: State, r: nat, watched: set<string>, used: set<string>): nat {
    if r == 1 then |s.life.snapshot|
    else if r == 2 then |KeySet(s.events.events) + watched|
    else |KeySet(s.cache.queues) + used|
  }

  lemma LoopSizeIs(s: State, mid: State, watched: set<string>, used: set<string>)
    requires Reaches(s, mid, watched, used) && LivePhase(mid.life.phase)
    ensures LoopSize(mid) == SizeWith(s, Rank(mid.life.phase), watched, used)
  {
  }

  lemma LiveIsInLoop(mid: State)
    requires LivePhase(mid.life.phase)
    ensures var (r, p) := Progress(mid); NextProgress(mid) == NextAt(LoopSize(mid), r, p)
  {
  }

  lemma LiveGoesOn(s: State, mid: State, watched: set<string>, used: set<string>)
    requires Reaches(s, mid, watched, used) && LivePhase(mid.life.phase)
    ensures var (r, p) := Progress(mid); NextProgress(mid) == NextAt(SizeWith(s, r, watched, used), r, p)
  {
    LoopSizeIs(s, mid, watched, used);
    LiveIsInLoop(mid);
  }

  lemma OthersGoOn(t: State, mid: State, next: State)
    requires mid.life == t.life && !AtRest(t.life.phase) && !LivePhase(t.life.phase)
    requires Progress(next) == NextProgress(mid)
    requires t.life.phase.DupeLoop? ==> 0 <= Remaining(next) < Remaining(t)
    ensures Passes(Progress(t), Progress(next), Remaining(t), Remaining(next), mid.cfg.flows, mid.cfg.mode == ModeB)
  {
  }

  lemma CopyRound(t: State, sch: Schedule, n: nat)
    requires Sound(t) && Polite(sch) && t.life.phase.DupeLoop?
    ensures 0 <= Remaining(Round(t, sch, n)) < Remaining(t)
  {
    var mid := Mid(t, sch, n);
    CallsLeaveLife(t, sch.calls(n));
    TurnBringsNearer(mid, sch.ends(n));
    RunAppend(t, sch.calls(n), TurnOf(mid, sch.ends(n)));
    RemainingIsNat(Run(mid, TurnOf(mid, sch.ends(n))));
  }

  /** One round from a state the hook has come to. */
  lemma RoundPasses(s: State, t: State, sch: Schedule, k: nat)
    requires Polite(sch) && Reaches(s, t, WatchedBefore(sch, k), UsedBefore(sch, k))
    ensures var (r, p), next := Progress(t), Round(t, sch, k);
            && Passes(Progress(t), Progress(next), Remaining(t), Remaining(next), s.cfg.flows, s.cfg.mode == ModeB)
            && (LivePhase(t.life.phase) ==>
                  Progress(next) == NextAt(SizeWith(s, r, WatchedBefore(sch, k + 1), UsedBefore(sch, k + 1)), r, p))
  {
    var next := Round(t, sch, k);
    RoundGoesOn(s, t, sch, k);
    AtRestIff(t.life.phase);
    LiveByRank(t.life.phase);
    if !AtRest(t.life.phase) {
      MidReaches(s, t, sch, k);
      var mid := Mid(t, sch, k);
      if LivePhase(t.life.phase) {
        LiveGoesOn(s, mid, WatchedBefore(sch, k + 1), UsedBefore(sch, k + 1));
      } else {
        if t.life.phase.DupeLoop? {
          CopyRound(t, sch, k);
        }
        OthersGoOn(t, mid, next);
      }
    }
  }

  lemma RoundIsOk(trace: nat -> (nat, nat), left: nat -> int, copied: nat, events: nat -> nat,
                  queues: nat -> nat, flows: bool, owned: bool, k: nat, r: nat, p: nat, size: nat)
    requires trace(k) == (r, p)
    requires Passes(trace(k), trace(k + 1), left(k), left(k + 1), flows, owned)
    requires size == if r == 1 then copied else if r == 2 then events(k + 1) else queues(k + 1)
    requires r == 1 || r == 2 || r == 6 || r == 8 ==> trace(k + 1) == NextAt(size, r, p)
    ensures RoundOk(trace, left, copied, events, queues, flows, owned, k)
  {
  }

  /** The trace reads the states before and after a round. */
  lemma TraceReads(s: State, sch: Schedule, k: nat)
    ensures var t := Driven(s, sch, k);
            && Trace(s, sch)(k) == Progress(t) && Trace(s, sch)(k + 1) == Progress(Round(t, sch, k))
            && Left(s, sch)(k) == Remaining(t) && Left(s, sch)(k + 1) == Remaining(Round(t, sch, k))
  {
  }

  lemma SizesAre(s: State, sch: Schedule, r: nat, k: nat)
    ensures SizeWith(s, r, WatchedBefore(sch, k), UsedBefore(sch, k)) ==
            if r == 1 then |s.life.snapshot| else if r == 2 then EventSizes(s, sch)(k) else QueueSizes(s, sch)(k)
  {
  }

  lemma DrivenPasses(s: State, sch: Schedule, k: nat)
    requires Ready(s, sch)
    ensures RoundOk(Trace(s, sch), Left(s, sch), |s.life.snapshot|, EventSizes(s, sch), QueueSizes(s, sch),
                    s.cfg.flows, s.cfg.mode == ModeB, k)
  {
    var t := Driven(s, sch, k);
    var (r, p) := Progress(t);
    DrivenReaches(s, sch, k);
    RoundPasses(s, t, sch, k);
    LiveByRank(t.life.phase);
    TraceReads(s, sch, k);
    SizesAre(s, sch, r, k + 1);
    RoundIsOk(Trace(s, sch), Left(s, sch), |s.life.snapshot|, EventSizes(s, sch), QueueSizes(s, sch),
              s.cfg.flows, s.cfg.mode == ModeB, k, r, p,
              SizeWith(s, r, WatchedBefore(sch, k + 1), UsedBefore(sch, k + 1)));
  }

  lemma TraceIsHooks(s: State, sch: Schedule)
    requires Ready(s, sch)
    ensures HookTrace(Trace(s, sch), Left(s, sch), |s.life.snapshot|, EventSizes(s, sch), QueueSizes(s, sch),
                      s.cfg.flows, s.cfg.mode == ModeB)
  {
    var trace, left, copied := Trace(s, sch), Left(s, sch), |s.life.snapshot|;
    var events, queues, flows, owned := EventSizes(s, sch), QueueSizes(s, sch), s.cfg.flows, s.cfg.mode == ModeB;
    forall k: nat ensures RoundOk(trace, left, copied, events, queues, flows, owned, k) {
      DrivenPasses(s, sch, k);
    }
  }

  // ---- When a trace ends ----

  lemma {:induction false} RestsOn(trace: nat -> (nat, nat), n: nat, m: nat)
    requires forall k: nat :: AtRestRank(trace(k).0) ==> trace(k + 1) == trace(k)
    requires n <= m && AtRestRank(trace(n).0)
    ensures trace(m) == trace(n)
    decreases m
  {
    if n < m {
      RestsOn(trace, n, m - 1);
      assert trace((m - 1) + 1) == trace(m - 1);
    }
  }

  /** A trace that is in one loop from some round on never ends. */
  lemma UncaughtGoesOn(trace: nat -> (nat, nat), sizes: nat -> nat, r: nat, t: nat, p: nat)
    requires forall k: nat :: AtRestRank(trace(k).0) ==> trace(k + 1) == trace(k)
    requires Follows(trace, sizes, r) && !AtRestRank(r) && trace(t) == (r, p) && !Catches(sizes, t, p)
    ensures !Ends(trace)
  {
    forall m: nat ensures !AtRestRank(trace(m).0) {
      var late := if m < t then 0 else m - t;
      StaysInLoop(trace, sizes, r, t, p, late);
      if AtRestRank(trace(m).0) {
        RestsOn(trace, m, t + late);
      }
    }
  }

  lemma CaughtLeaves(trace: nat -> (nat, nat), sizes: nat -> nat, r: nat, t: nat, p: nat) returns (n: nat)
    requires Follows(trace, sizes, r) && trace(t) == (r, p) && Catches(sizes, t, p)
    ensures CatchesAfter(sizes, t, p, n) && trace(t + n + 1) == (r + 1, 0)
  {
    var late: nat :| CaughtAt(sizes, t, p, late);
    n := FirstCatch(sizes, t, p, late);
    LeavesLoop(trace, sizes, r, t, p, n);
  }

  /** The loop over the copied connections ends: the copy does not grow. */
  lemma {:induction false} CopyLoopEnds(trace: nat -> (nat, nat), left: nat -> int, t: nat)
    requires forall k: nat :: trace(k).0 == 4 ==>
                                (trace(k + 1).0 == 4 || trace(k + 1).0 == 5) && 0 <= left(k + 1) < left(k)
    requires trace(t).0 == 4
    ensures Ends(trace)
    decreases left(t)
  {
    if trace(t + 1).0 == 4 {
      CopyLoopEnds(trace, left, t + 1);
    } else {
      assert AtRestRank(trace(t + 1).0);
    }
  }

  lemma CopyEnds(trace: nat -> (nat, nat), left: nat -> int, copied: nat,
                 events: nat -> nat, queues: nat -> nat, flows: bool, owned: bool, t: nat)
    requires HookTrace(trace, left, copied, events, queues, flows, owned)
    requires trace(t).0 == 3 || trace(t).0 == 4
    ensures Ends(trace)
  {
    CopyFollows(trace, left, copied, events, queues, flows, owned);
    assert RoundOk(trace, left, copied, events, queues, flows, owned, t);
    CopyLoopEnds(trace, left, if trace(t).0 == 3 then t + 1 else t);
  }

  /** From the loop over the queue-events, the first hook returns if and only if that loop catches
      up with the queues observed. */
  lemma FromEvents(trace: nat -> (nat, nat), left: nat -> int, copied: nat,
                   events: nat -> nat, queues: nat -> nat, flows: bool, owned: bool, t: nat, p: nat)
    requires HookTrace(trace, left, copied, events, queues, flows, owned) && trace(t) == (2, p)
    ensures Ends(trace) <==> Catches(events, t, p)
  {
    EventsFollow(trace, left, copied, events, queues, flows, owned);
    RestFollows(trace, left, copied, events, queues, flows, owned);
    if Catches(events, t, p) {
      var n := CaughtLeaves(trace, events, 2, t, p);
      CopyEnds(trace, left, copied, events, queues, flows, owned, t + n + 1);
    } else {
      UncaughtGoesOn(trace, events, 2, t, p);
    }
  }

  /** The last step of the second hook takes at most two turns. */
  lemma RoleEnds(trace: nat -> (nat, nat), left: nat -> int, copied: nat,
                 events: nat -> nat, queues: nat -> nat, flows: bool, owned: bool, t: nat)
    requires HookTrace(trace, left, copied, events, queues, flows, owned) && trace(t).0 == 9
    ensures Ends(trace)
  {
    assert RoundOk(trace, left, copied, events, queues, flows, owned, t);
    assert RoundOk(trace, left, copied, events, queues, flows, owned, t + 1);
    assert AtRestRank(trace(t + 1).0) || AtRestRank(trace(t + 2).0);
  }

  lemma FromQueues(trace: nat -> (nat, nat), left: nat -> int, copied: nat,
                   events: nat -> nat, queues: nat -> nat, flows: bool, owned: bool, t: nat, p: nat)
    requires HookTrace(trace, left, copied, events, queues, flows, owned) && trace(t) == (8, p)
    ensures Ends(trace) <==> Catches(queues, t, p)
  {
    QueuesFollow(trace, left, copied, events, queues, flows, owned, 8);
    RestFollows(trace, left, copied, events, queues, flows, owned);
    if Catches(queues, t, p) {
      var n := CaughtLeaves(trace, queues, 8, t, p);
      RoleEnds(trace, left, copied, events, queues, flows, owned, t + n + 1);
    } else {
      UncaughtGoesOn(trace, queues, 8, t, p);
    }
  }

  /** The turns the flow producer takes: none to wait for when flows are off. */
  function ProducerTurns(waiting: bool, flows: bool): nat {
    if waiting || !flows then 1 else 2
  }

  lemma ProducerPasses(trace: nat -> (nat, nat), left: nat -> int, copied: nat,
                       events: nat -> nat, queues: nat -> nat, flows: bool, owned: bool, t: nat)
    requires HookTrace(trace, left, copied, events, queues, flows, owned)
    requires trace(t) == (7, 0) || trace(t) == (7, 1)
    ensures trace(t + ProducerTurns(trace(t) == (7, 1), flows)) == (8, 0)
  {
    assert RoundOk(trace, left, copied, events, queues, flows, owned, t);
    assert RoundOk(trace, left, copied, events, queues, flows, owned, t + 1);
  }

  /** The drain has to catch up first, and then `closeAll`, from the round the drain lets it start. */
  ghost predicate CatchesTwice(queues: nat -> nat, p: nat, flows: bool) {
    exists n: nat :: CatchesAfter(queues, 0, p, n) && Catches(queues, n + 1 + ProducerTurns(false, flows), 0)
  }

  lemma OneFirstCatch(sizes: nat -> nat, t: nat, p: nat, n: nat, m: nat)
    requires CatchesAfter(sizes, t, p, n) && CatchesAfter(sizes, t, p, m)
    ensures n == m
  {
  }

  lemma FromDrain(trace: nat -> (nat, nat), left: nat -> int, copied: nat,
                  events: nat -> nat, queues: nat -> nat, flows: bool, owned: bool, p: nat)
    requires HookTrace(trace, left, copied, events, queues, flows, owned) && trace(0) == (6, p)
    ensures Ends(trace) <==> CatchesTwice(queues, p, flows)
  {
    QueuesFollow(trace, left, copied, events, queues, flows, owned, 6);
    RestFollows(trace, left, copied, events, queues, flows, owned);
    if Catches(queues, 0, p) {
      var n := CaughtLeaves(trace, queues, 6, 0, p);
      ProducerPasses(trace, left, copied, events, queues, flows, owned, n + 1);
      FromQueues(trace, left, copied, events, queues, flows, owned, n + 1 + ProducerTurns(false, flows), 0);
      forall m: nat | CatchesAfter(queues, 0, p, m) ensures m == n {
        OneFirstCatch(queues, 0, p, n, m);
      }
    } else {
      UncaughtGoesOn(trace, queues, 6, 0, p);
    }
  }

  /** The worker loop takes the turns its copied map asks for. */
  lemma WorkersPass(trace: nat -> (nat, nat), copied: nat, p: nat)
    requires Follows(trace, Constant(copied), 1) && trace(0) == (1, p) && p <= 2 * copied
    ensures trace(2 * copied - p + 1) == (2, 0)
  {
    var n, sizes := 2 * copied - p, Constant(copied);
    assert CaughtAt(sizes, 0, p, n);
    assert forall m: nat :: m < n ==> !CaughtAt(sizes, 0, p, m);
    LeavesLoop(trace, sizes, 1, 0, p, n);
  }

  // ---- When a hook returns ----

  /** Whether the hook running in `s` returns, told from the calls alone. The loop over the
      queue-events has to catch up with the queues observed, the drain and then `closeAll` with the
      queues used, each from the round it starts in. A hook past those loops returns. */
  ghost predicate Returns(s: State, sch: Schedule) {
    var p, copied := Position(s.life.phase), |s.life.snapshot|;
    match s.life.phase
    case WorkerLoop(_, _, _) => p <= 2 * copied && Catches(EventSizes(s, sch), 2 * copied - p + 1, 0)
    case EventsLoop(_, _) => Catches(EventSizes(s, sch), 0, p)
    case DrainLoop(_, _) => CatchesTwice(QueueSizes(s, sch), p, s.cfg.flows)
    case Producer(busy) => Catches(QueueSizes(s, sch), ProducerTurns(busy, s.cfg.flows), 0)
    case QueueLoop(_, _) => Catches(QueueSizes(s, sch), 0, p)
    case _ => true
  }

  lemma CompletesIsEnds(s: State, sch: Schedule)
    ensures Completes(s, sch) <==> Ends(Trace(s, sch))
  {
    if Completes(s, sch) {
      var n: nat :| AtRest(Driven(s, sch, n).life.phase);
      AtRestIff(Driven(s, sch, n).life.phase);
      assert AtRestRank(Trace(s, sch)(n).0);
    }
    if Ends(Trace(s, sch)) {
      var n: nat :| AtRestRank(Trace(s, sch)(n).0);
      AtRestIff(Driven(s, sch, n).life.phase);
    }
  }

  lemma WorkersAreBounded(s: State)
    requires Sound(s) && s.life.phase.WorkerLoop?
    ensures Position(s.life.phase) <= 2 * |s.life.snapshot|
  {
    assert InBounds(s);
  }

  /** From the worker loop, the loop over the queue-events starts when the copied map is done. */
  lemma FromWorkers(trace: nat -> (nat, nat), left: nat -> int, copied: nat,
                    events: nat -> nat, queues: nat -> nat, flows: bool, owned: bool, p: nat)
    requires HookTrace(trace, left, copied, events, queues, flows, owned)
    requires trace(0) == (1, p) && p <= 2 * copied
    ensures Ends(trace) <==> Catches(events, 2 * copied - p + 1, 0)
  {
    WorkersFollow(trace, left, copied, events, queues, flows, owned);
    WorkersPass(trace, copied, p);
    FromEvents(trace, left, copied, events, queues, flows, owned, 2 * copied - p + 1, 0);
  }

  lemma FirstHookEndsIff(s: State, sch: Schedule, trace: nat -> (nat, nat), left: nat -> int)
    requires Sound(s) && trace(0) == Progress(s) && 1 <= Rank(s.life.phase) <= 4
    requires HookTrace(trace, left, |s.life.snapshot|, EventSizes(s, sch), QueueSizes(s, sch),
                       s.cfg.flows, s.cfg.mode == ModeB)
    ensures Ends(trace) <==> Returns(s, sch)
  {
    var p, copied, flows, owned := Position(s.life.phase), |s.life.snapshot|, s.cfg.flows, s.cfg.mode == ModeB;
    var events, queues := EventSizes(s, sch), QueueSizes(s, sch);
    if s.life.phase.WorkerLoop? {
      WorkersAreBounded(s);
      FromWorkers(trace, left, copied, events, queues, flows, owned, p);
    } else if s.life.phase.EventsLoop? {
      FromEvents(trace, left, copied, events, queues, flows, owned, 0, p);
    } else {
      CopyEnds(trace, left, copied, events, queues, flows, owned, 0);
    }
  }

  lemma SecondHookEndsIff(s: State, sch: Schedule, trace: nat -> (nat, nat), left: nat -> int)
    requires trace(0) == Progress(s) && 6 <= Rank(s.life.phase) <= 9
    requires HookTrace(trace, left, |s.life.snapshot|, EventSizes(s, sch), QueueSizes(s, sch),
                       s.cfg.flows, s.cfg.mode == ModeB)
    ensures Ends(trace) <==> Returns(s, sch)
  {
    var p, copied, flows, owned := Position(s.life.phase), |s.life.snapshot|, s.cfg.flows, s.cfg.mode == ModeB;
    var events, queues := EventSizes(s, sch), QueueSizes(s, sch);
    if s.life.phase.DrainLoop? {
      FromDrain(trace, left, copied, events, queues, flows, owned, p);
    } else if s.life.phase.Producer? {
      ProducerPasses(trace, left, copied, events, queues, flows, owned, 0);
      FromQueues(trace, left, copied, events, queues, flows, owned, ProducerTurns(s.life.phase.busy, flows), 0);
    } else if s.life.phase.QueueLoop? {
      FromQueues(trace, left, copied, events, queues, flows, owned, 0, p);
    } else {
      RoleEnds(trace, left, copied, events, queues, flows, owned, 0);
    }
  }

  lemma EndsIff(s: State, sch: Schedule, trace: nat -> (nat, nat), left: nat -> int)
    requires Sound(s) && trace(0) == Progress(s)
    requires HookTrace(trace, left, |s.life.snapshot|, EventSizes(s, sch), QueueSizes(s, sch),
                       s.cfg.flows, s.cfg.mode == ModeB)
    ensures Ends(trace) <==> Returns(s, sch)
  {
    var rank := Rank(s.life.phase);
    if 1 <= rank <= 4 {
      FirstHookEndsIff(s, sch, trace, left);
    } else if 6 <= rank <= 9 {
      SecondHookEndsIff(s, sch, trace, left);
    } else {
      assert AtRestRank(trace(0).0);
    }
  }

  lemma ReachableIsCounted(cfg: Config, before: seq<Event>)
    ensures Sound(Run(Boot(cfg), before)) && AllCounted(Run(Boot(cfg), before))
  {
    BootSound(cfg);
    assert KeySet(Boot(cfg).events.events) == {};
    assert KeySet(Boot(cfg).cache.queues) == {};
    RunKeepsSound(Boot(cfg), before);
    RunIsCounted(Boot(cfg), before);
  }

  /** From every reachable state, under every schedule of calls and outcomes, the running hook
      returns exactly when the queues its calls observe, or use, are few or late enough for the
      loops that follow them. The condition speaks of the names in the calls and of the turn each
      is made before; neither other calls nor any outcome enters it. */
  lemma HookCompletesIff(cfg: Config, before: seq<Event>, sch: Schedule)
    requires Polite(sch)
    ensures Completes(Run(Boot(cfg), before), sch) <==> Returns(Run(Boot(cfg), before), sch)
  {
    ReachableIsCounted(cfg, before);
    CompletesIff(Run(Boot(cfg), before), sch);
  }

  lemma CompletesIff(s: State, sch: Schedule)
    requires Ready(s, sch)
    ensures Completes(s, sch) <==> Returns(s, sch)
  {
    CompletesIsEnds(s, sch);
    TraceIsHooks(s, sch);
    EndsIff(s, sch, Trace(s, sch), Left(s, sch));
  }

  // ---- In particular ----

  /** With the calls before turn `2 * k` in, the list has no more than `k` elements. */
  predicate CaughtUp(sizes: nat -> nat, k: nat) {
    sizes(2 * k + 1) <= k
  }

  lemma CatchesFromStart(sizes: nat -> nat)
    ensures Catches(sizes, 0, 0) <==> exists k: nat :: CaughtUp(sizes, k)
  {
    if Catches(sizes, 0, 0) {
      var n: nat :| CaughtAt(sizes, 0, 0, n);
      assert n == 2 * (n / 2);
      assert CaughtUp(sizes, n / 2);
    }
    if k: nat :| CaughtUp(sizes, k) {
      assert CaughtAt(sizes, 0, 0, 2 * k);
    }
  }

  /** `closeAll` returns exactly when for some `k` no more than `k` different queues are cached once
      the calls before its turn `2 * k` are in. */
  lemma CloseAllReturnsIff(cfg: Config, before: seq<Event>, sch: Schedule)
    requires Polite(sch) && Run(Boot(cfg), before).life.phase == QueueLoop(0, false)
    ensures var s := Run(Boot(cfg), before);
            Completes(s, sch) <==> exists k: nat :: CaughtUp(QueueSizes(s, sch), k)
  {
    HookCompletesIff(cfg, before, sch);
    CatchesFromStart(QueueSizes(Run(Boot(cfg), before), sch));
  }

  /** The same for the loop over the queue-events and the queues observed: the rest of the first
      hook always returns. */
  lemma CloseQueueEventsReturnsIff(cfg: Config, before: seq<Event>, sch: Schedule)
    requires Polite(sch) && Run(Boot(cfg), before).life.phase == EventsLoop(0, false)
    ensures var s := Run(Boot(cfg), before);
            Completes(s, sch) <==> exists k: nat :: CaughtUp(EventSizes(s, sch), k)
  {
    HookCompletesIff(cfg, before, sch);
    CatchesFromStart(EventSizes(Run(Boot(cfg), before), sch));
  }

  lemma {:induction false} FewWatched(sch: Schedule, names: set<string>, n: nat)
    requires forall k: nat :: Watched(sch.calls(k)) <= names
    ensures WatchedBefore(sch, n) <= names
  {
    if n > 0 {
      FewWatched(sch, names, n - 1);
    }
  }

  lemma {:induction false} FewUsed(sch: Schedule, names: set<string>, n: nat)
    requires forall k: nat :: Used(sch.calls(k)) <= names
    ensures UsedBefore(sch, n) <= names
  {
    if n > 0 {
      FewUsed(sch, names, n - 1);
    }
  }

  lemma FewNames(a: set<string>, b: set<string>, names: set<string>)
    requires b <= names
    ensures |a + b| <= |a + names|
  {
    assert a + names == (a + b) + ((a + names) - (a + b));
  }

  /** While finitely many different queues are observed, none for instance, `onModuleDestroy`
      returns: whatever is registered, unregistered, enqueued or fails meanwhile, and for ever. */
  lemma FirstHookReturns(cfg: Config, before: seq<Event>, sch: Schedule, names: set<string>)
    requires Polite(sch) && forall k: nat :: Watched(sch.calls(k)) <= names
    requires 1 <= Rank(Run(Boot(cfg), before).life.phase) <= 4
    ensures Completes(Run(Boot(cfg), before), sch)
  {
    var s := Run(Boot(cfg), before);
    ReachableIsCounted(cfg, before);
    HookCompletesIff(cfg, before, sch);
    FewEventsReturn(s, sch, names);
  }

  lemma FewEventsReturn(s: State, sch: Schedule, names: set<string>)
    requires Sound(s) && 1 <= Rank(s.life.phase) <= 4 && forall k: nat :: Watched(sch.calls(k)) <= names
    ensures Returns(s, sch)
  {
    FewEventsAreCaught(s, sch, names);
    if s.life.phase.WorkerLoop? {
      WorkersAreBounded(s);
    }
  }

  lemma FewEventsAreCaught(s: State, sch: Schedule, names: set<string>)
    requires forall k: nat :: Watched(sch.calls(k)) <= names
    ensures forall t: nat, p: nat :: Catches(EventSizes(s, sch), t, p)
  {
    var sizes, known := EventSizes(s, sch), KeySet(s.events.events);
    forall k: nat ensures sizes(k) <= |known + names| {
      FewWatched(sch, names, k);
      FewNames(known, WatchedBefore(sch, k), names);
    }
    forall t: nat, p: nat ensures Catches(sizes, t, p) {
      BoundedIsCaught(sizes, |known + names|, t, p);
    }
  }

  lemma FewQueuesAreCaught(s: State, sch: Schedule, names: set<string>)
    requires forall k: nat :: Used(sch.calls(k)) <= names
    ensures forall t: nat, p: nat :: Catches(QueueSizes(s, sch), t, p)
  {
    var sizes, known := QueueSizes(s, sch), KeySet(s.cache.queues);
    forall k: nat ensures sizes(k) <= |known + names| {
      FewUsed(sch, names, k);
      FewNames(known, UsedBefore(sch, k), names);
    }
    forall t: nat, p: nat ensures Catches(sizes, t, p) {
      BoundedIsCaught(sizes, |known + names|, t, p);
    }
  }

  lemma TwiceIfAlways(queues: nat -> nat, p: nat, flows: bool)
    requires forall t: nat, p: nat :: Catches(queues, t, p)
    ensures CatchesTwice(queues, p, flows)
  {
    assert Catches(queues, 0, p);
    var late: nat :| CaughtAt(queues, 0, p, late);
    var n := FirstCatch(queues, 0, p, late);
  }

  /** While finitely many different queues are used, none for instance, `onApplicationShutdown`
      returns, whatever else is called and whatever fails. */
  lemma SecondHookReturns(cfg: Config, before: seq<Event>, sch: Schedule, names: set<string>)
    requires Polite(sch) && forall k: nat :: Used(sch.calls(k)) <= names
    requires 6 <= Rank(Run(Boot(cfg), before).life.phase) <= 9
    ensures Completes(Run(Boot(cfg), before), sch)
  {
    HookCompletesIff(cfg, before, sch);
    FewQueuesReturn(Run(Boot(cfg), before), sch, names);
  }

  lemma FewQueuesReturn(s: State, sch: Schedule, names: set<string>)
    requires 6 <= Rank(s.life.phase) <= 9 && forall k: nat :: Used(sch.calls(k)) <= names
    ensures Returns(s, sch)
  {
    FewQueuesAreCaught(s, sch, names);
    if s.life.phase.DrainLoop? {
      TwiceIfAlways(QueueSizes(s, sch), Position(s.life.phase), s.cfg.flows);
    }
  }
}
