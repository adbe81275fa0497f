/** The bounded pool of the benchmark: `limit` runners share one counter, and each awaits a task
    before it takes the next index. Also the nearest-rank percentile of its samples. */
module Benchmark {
  import opened Wrappers

  /** Where one runner's `while` loop stands. A rejected task ends its runner. */
  datatype Runner = Awaiting(index: nat) | Finished | Failed(index: nat)

  datatype Pool = Pool(count: nat, next: nat, runners: seq<Runner>, started: seq<nat>, completed: set<nat>)

  /** One settled task: which runner awaited it and whether it resolved. */
  datatype Settled = Settled(runner: nat, ok: bool)

  /** The loop head of a runner: take the next index and start on it, or leave. */
  function Taken(p: Pool): (Pool, Runner) {
    if p.next < p.count then
      (p.(next := p.next + 1, started := p.started + [p.next]), Awaiting(p.next))
    else (p, Finished)
  }

  /** `Array.from` runs the runners one after the other, each up to its first `await`. */
  function Launch(count: nat, limit: nat): Pool {
    if limit == 0 then Pool(count, 0, [], [], {})
    else
      var (p, r) := Taken(Launch(count, limit - 1));
      p.(runners := p.runners + [r])
  }

  function Step(p: Pool, s: Settled): Pool {
    if s.runner >= |p.runners| || !p.runners[s.runner].Awaiting? then p
    else
      var i := p.runners[s.runner].index;
      if !s.ok then p.(runners := p.runners[s.runner := Failed(i)])
      else
        var (p', r) := Taken(p.(completed := p.completed + {i}));
        p'.(runners := p'.runners[s.runner := r])
  }

  function Run(p: Pool, ss: seq<Settled>): Pool
    decreases |ss|
  {
    if ss == [] then p else Run(Step(p, ss[0]), ss[1..])
  }

  /** `Promise.all` over the runners has resolved. */
  predicate Resolved(p: Pool) {
    forall r :: 0 <= r < |p.runners| ==> p.runners[r].Finished?
  }

  class PoolRun {
    const count: nat
    var next: nat
    var runners: seq<Runner>
    var started: seq<nat>
    var completed: set<nat>

    ghost function Model(): Pool
      reads this
    {
      Pool(count, next, runners, started, completed)
    }

    constructor (count: nat, limit: nat)
      ensures Model() == Launch(count, limit)
    {
      this.count := count;
      next, runners, started, completed := 0, [], [], {};
      new;
      for k := 0 to limit
        invariant Model() == Launch(count, k)
      {
        var r := Take();
        runners := runners + [r];
      }
    }

    method Take() returns (r: Runner)
      modifies this
      ensures (Model(), r) == Taken(old(Model()))
    {
      if next < count {
        started := started + [next];
        r := Awaiting(next);
        next := next + 1;
      } else {
        r := Finished;
      }
    }

    method Settle(s: Settled)
      modifies this
      ensures Model() == Step(old(Model()), s)
    {
      if s.runner < |runners| && runners[s.runner].Awaiting? {
        var i := runners[s.runner].index;
        if s.ok {
          completed := completed + {i};
          var r := Take();
          runners := runners[s.runner := r];
        } else {
          runners := runners[s.runner := Failed(i)];
        }
      }
    }
  }

  function Below(n: nat): (s: set<nat>)
    ensures forall i: nat :: i in s <==> i < n
    ensures |s| == n
  {
    if n == 0 then {} else Below(n - 1) + {n - 1}
  }

  /** The indices started and not yet settled. */
  function InFlight(p: Pool): set<nat> {
    set r | 0 <= r < |p.runners| && p.runners[r].Awaiting? :: p.runners[r].index
  }

  function Rejected(p: Pool): set<nat> {
    set r | 0 <= r < |p.runners| && p.runners[r].Failed? :: p.runners[r].index
  }

  predicate Holding(r: Runner) {
    r.Awaiting? || r.Failed?
  }

  /** Each index below `next` was started once, in order, and is completed, in flight or failed,
      in the hands of at most one runner. */
  ghost predicate Sound(p: Pool) {
    && p.next <= p.count
    && p.started == seq(p.next, i => i)
    && (forall r :: 0 <= r < |p.runners| && Holding(p.runners[r]) ==>
          p.runners[r].index < p.next && p.runners[r].index !in p.completed)
    && (forall r, q :: 0 <= r < q < |p.runners| && Holding(p.runners[r]) && Holding(p.runners[q])
                       ==> p.runners[r].index != p.runners[q].index)
    && (forall i :: 0 <= i < p.next ==> i in p.completed || Held(p, i))
    && (forall i :: i in p.completed ==> i < p.next)
    && (forall r :: 0 <= r < |p.runners| && p.runners[r].Finished? ==> p.next == p.count)
  }

  ghost predicate Held(p: Pool, i: nat) {
    exists r :: 0 <= r < |p.runners| && Holding(p.runners[r]) && p.runners[r].index == i
  }

  lemma {:induction false} LaunchIsSound(count: nat, limit: nat)
    ensures Sound(Launch(count, limit)) && |Launch(count, limit).runners| == limit
    ensures Launch(count, limit).count == count && Launch(count, limit).completed == {}
  {
    if limit > 0 {
      LaunchIsSound(count, limit - 1);
      var p, p' := Launch(count, limit - 1), Launch(count, limit);
      assert p'.runners[limit - 1] == Taken(p).1;
      forall i | 0 <= i < p'.next ensures i in p'.completed || Held(p', i) {
        if i < p.next {
          assert Held(p, i);
          var r :| 0 <= r < |p.runners| && Holding(p.runners[r]) && p.runners[r].index == i;
          assert p'.runners[r] == p.runners[r];
        }
      }
    }
  }

  lemma StepCovers(p: Pool, s: Settled, i: nat)
    requires Sound(p) && Step(p, s) != p && i < Step(p, s).next
    ensures i in Step(p, s).completed || Held(Step(p, s), i)
  {
    var p' := Step(p, s);
    if i < p.next && i !in p.completed {
      var r :| 0 <= r < |p.runners| && Holding(p.runners[r]) && p.runners[r].index == i;
      assert r != s.runner ==> p'.runners[r] == p.runners[r];
    }
    assert Holding(p'.runners[s.runner]) ==> Held(p', p'.runners[s.runner].index);
  }

  lemma StepIsSound(p: Pool, s: Settled)
    requires Sound(p)
    ensures Sound(Step(p, s)) && |Step(p, s).runners| == |p.runners| && Step(p, s).count == p.count
  {
    var p' := Step(p, s);
    if p' != p {
      forall i: nat | i < p'.next ensures i in p'.completed || Held(p', i) {
        StepCovers(p, s, i);
      }
    }
  }

  lemma {:induction false} RunIsSound(p: Pool, ss: seq<Settled>)
    requires Sound(p)
    ensures Sound(Run(p, ss)) && |Run(p, ss).runners| == |p.runners| && Run(p, ss).count == p.count
    decreases |ss|
  {
    if ss != [] {
      StepIsSound(p, ss[0]);
      RunIsSound(Step(p, ss[0]), ss[1..]);
    }
  }

  // ---- How many are in flight ----

  lemma SubsetSize(a: set<nat>, b: set<nat>)
    requires a <= b
    ensures |a| <= |b|
  {
    assert b == a + (b - a);
  }

  function Indices(rs: seq<Runner>): set<nat> {
    set r | 0 <= r < |rs| && rs[r].Awaiting? :: rs[r].index
  }

  lemma {:induction false} FewIndices(rs: seq<Runner>)
    ensures |Indices(rs)| <= |rs|
  {
    if rs != [] {
      var n := |rs| - 1;
      FewIndices(rs[..n]);
      var more := if rs[n].Awaiting? then {rs[n].index} else {};
      assert Indices(rs) == Indices(rs[..n]) + more by {
        assert forall r :: 0 <= r < n ==> rs[..n][r] == rs[r];
      }
      assert |Indices(rs)| <= |Indices(rs[..n])| + |more|;
    }
  }

  lemma SoundCover(p: Pool, i: nat)
    requires Sound(p)
    ensures i in Below(p.next) <==> i in p.completed + InFlight(p) + Rejected(p)
  {
    if i in Below(p.next) && i !in p.completed {
      assert Held(p, i);
    }
  }

  lemma SoundDisjoint(p: Pool, i: nat)
    requires Sound(p)
    ensures i in p.completed ==> i !in InFlight(p) && i !in Rejected(p)
    ensures i in InFlight(p) ==> i !in Rejected(p)
  {
    if i in InFlight(p) {
      var r :| 0 <= r < |p.runners| && p.runners[r] == Awaiting(i);
      forall q | 0 <= q < |p.runners| && p.runners[q].Failed? ensures p.runners[q].index != i {
        assert q < r || r < q;
      }
    }
  }

  lemma SoundPartition(p: Pool)
    requires Sound(p)
    ensures p.completed + InFlight(p) + Rejected(p) == Below(p.next)
    ensures p.completed !! InFlight(p) && InFlight(p) !! Rejected(p)
  {
    forall i: nat ensures i in Below(p.next) <==> i in p.completed + InFlight(p) + Rejected(p) {
      SoundCover(p, i);
    }
    forall i: nat ensures (i in p.completed ==> i !in InFlight(p)) && (i in InFlight(p) ==> i !in Rejected(p)) {
      SoundDisjoint(p, i);
    }
  }

  lemma SoundBound(p: Pool)
    requires Sound(p)
    ensures |InFlight(p)| <= |p.runners| && |InFlight(p)| <= p.count
  {
    FewIndices(p.runners);
    assert InFlight(p) == Indices(p.runners);
    SubsetSize(InFlight(p), Below(p.count));
  }

  /** Under every interleaving and every outcome, the indices started are 0, 1, 2 and so on, each
      once, and at most `min(limit, count)` tasks are in flight. */
  lemma EachIndexStartsOnce(count: nat, limit: nat, ss: seq<Settled>)
    ensures var p := Run(Launch(count, limit), ss);
            && p.started == seq(p.next, i => i) && p.next <= count
            && |InFlight(p)| <= limit && |InFlight(p)| <= count
            && p.completed + InFlight(p) + Rejected(p) == Below(p.next)
            && p.completed !! InFlight(p) && InFlight(p) !! Rejected(p)
  {
    LaunchIsSound(count, limit);
    RunIsSound(Launch(count, limit), ss);
    SoundPartition(Run(Launch(count, limit), ss));
    SoundBound(Run(Launch(count, limit), ss));
  }

  // ---- When the pool is done ----

  lemma ResolvedHasRunAll(count: nat, limit: nat, ss: seq<Settled>)
    requires limit >= 1 || count == 0
    requires Resolved(Run(Launch(count, limit), ss))
    ensures Run(Launch(count, limit), ss).completed == Below(count)
  {
    EachIndexStartsOnce(count, limit, ss);
    LaunchIsSound(count, limit);
    RunIsSound(Launch(count, limit), ss);
    var p := Run(Launch(count, limit), ss);
    assert InFlight(p) == {} && Rejected(p) == {};
    if limit >= 1 {
      assert p.runners[0].Finished?;
    }
  }

  /** If the pool has resolved after this run, every index has completed. */
  ghost predicate ResolvesComplete(count: nat, limit: nat, ss: seq<Settled>) {
    var p := Run(Launch(count, limit), ss);
    Resolved(p) ==> p.completed == Below(count)
  }

  /** The pool resolves only after every index has completed, in every run, exactly when it was
      given a runner or nothing to do. */
  lemma PoolCompletesAllIff(count: nat, limit: nat)
    ensures (forall ss :: ResolvesComplete(count, limit, ss)) <==> limit >= 1 || count == 0
  {
    if limit >= 1 || count == 0 {
      forall ss ensures ResolvesComplete(count, limit, ss) {
        if Resolved(Run(Launch(count, limit), ss)) {
          ResolvedHasRunAll(count, limit, ss);
        }
      }
    } else {
      var none: seq<Settled> := [];
      var p := Run(Launch(count, limit), none);
      assert p == Launch(count, limit) && Resolved(p) && p.completed == {};
      assert 0 in Below(count);
      assert !ResolvesComplete(count, limit, none);
    }
  }

  function Awaited(rs: seq<Runner>): nat {
    if rs == [] then 0
    else Awaited(rs[..|rs| - 1]) + if rs[|rs| - 1].Awaiting? then 1 else 0
  }

  /** The settlements a pool can still take: indices not started yet and tasks in flight. */
  function Left(p: Pool): int {
    p.count - p.next + Awaited(p.runners)
  }

  lemma {:induction false} AwaitedUpdate(rs: seq<Runner>, k: nat, r: Runner)
    requires k < |rs|
    ensures Awaited(rs[k := r]) == Awaited(rs) + (if r.Awaiting? then 1 else 0) - (if rs[k].Awaiting? then 1 else 0)
  {
    var n := |rs| - 1;
    if k < n {
      assert rs[k := r][..n] == rs[..n][k := r];
      AwaitedUpdate(rs[..n], k, r);
    } else {
      assert rs[k := r][..n] == rs[..n];
    }
  }

  function Settlements(p: Pool, ss: seq<Settled>): nat
    decreases |ss|
  {
    if ss == [] then 0
    else (if Step(p, ss[0]) != p then 1 else 0) + Settlements(Step(p, ss[0]), ss[1..])
  }

  lemma StepCounts(p: Pool, s: Settled)
    requires Sound(p) && Step(p, s) != p
    ensures Left(Step(p, s)) == Left(p) - 1
  {
    AwaitedUpdate(p.runners, s.runner, Step(p, s).runners[s.runner]);
  }

  lemma {:induction false} RunCounts(p: Pool, ss: seq<Settled>)
    requires Sound(p)
    ensures Left(Run(p, ss)) == Left(p) - Settlements(p, ss)
    decreases |ss|
  {
    if ss != [] {
      StepIsSound(p, ss[0]);
      if Step(p, ss[0]) != p {
        StepCounts(p, ss[0]);
      }
      RunCounts(Step(p, ss[0]), ss[1..]);
    }
  }

  lemma {:induction false} LaunchLeft(count: nat, limit: nat)
    ensures Left(Launch(count, limit)) == count
  {
    if limit > 0 {
      LaunchLeft(count, limit - 1);
      var p, p' := Launch(count, limit - 1), Launch(count, limit);
      LaunchIsSound(count, limit - 1);
      assert p'.runners[..|p'.runners| - 1] == p.runners;
    }
  }

  /** Every settled task brings the pool one step nearer its end: it takes at most `count` of
      them, and after exactly `count` no index is left to start and nothing is in flight. */
  lemma PoolEnds(count: nat, limit: nat, ss: seq<Settled>)
    ensures Settlements(Launch(count, limit), ss) <= count
    ensures Settlements(Launch(count, limit), ss) == count ==>
              var p := Run(Launch(count, limit), ss); p.next == count && InFlight(p) == {}
  {
    var p := Run(Launch(count, limit), ss);
    LaunchIsSound(count, limit);
    LaunchLeft(count, limit);
    RunIsSound(Launch(count, limit), ss);
    RunCounts(Launch(count, limit), ss);
    forall r | 0 <= r < |p.runners| && p.runners[r].Awaiting? ensures Awaited(p.runners) > 0 {
      AwaitedUpdate(p.runners, r, Finished);
    }
  }

  ghost predicate NoneRejects(ss: seq<Settled>) {
    forall i :: 0 <= i < |ss| ==> ss[i].ok
  }

  ghost predicate NoneFailed(p: Pool) {
    forall r :: 0 <= r < |p.runners| ==> !p.runners[r].Failed?
  }

  lemma {:induction false} LaunchHasNoneFailed(count: nat, limit: nat)
    ensures NoneFailed(Launch(count, limit))
  {
    if limit > 0 {
      LaunchHasNoneFailed(count, limit - 1);
    }
  }

  lemma {:induction false} RunHasNoneFailed(p: Pool, ss: seq<Settled>)
    requires NoneFailed(p) && NoneRejects(ss)
    ensures NoneFailed(Run(p, ss))
    decreases |ss|
  {
    if ss != [] {
      RunHasNoneFailed(Step(p, ss[0]), ss[1..]);
    }
  }

  /** A pool none of whose runners failed has resolved, or still has a task in flight. */
  lemma ResolvedOrInFlight(p: Pool)
    requires NoneFailed(p)
    ensures Resolved(p) <==> InFlight(p) == {}
  {
    if !Resolved(p) {
      var r :| 0 <= r < |p.runners| && !p.runners[r].Finished?;
      assert p.runners[r].index in InFlight(p);
    }
  }

  lemma {:induction false} NoneAwaited(rs: seq<Runner>)
    requires forall r :: 0 <= r < |rs| ==> rs[r].Finished?
    ensures Awaited(rs) == 0
  {
    if rs != [] {
      NoneAwaited(rs[..|rs| - 1]);
    }
  }

  /** With at least one runner and tasks that all resolve, the pool has resolved exactly when as
      many tasks have settled as there are indices; until then one is in flight, so it can always
      go on. */
  lemma PoolResolvesIff(count: nat, limit: nat, ss: seq<Settled>)
    requires limit >= 1 && NoneRejects(ss)
    ensures var p := Run(Launch(count, limit), ss);
            && (Resolved(p) <==> Settlements(Launch(count, limit), ss) == count)
            && (Resolved(p) <==> InFlight(p) == {})
  {
    var p := Run(Launch(count, limit), ss);
    LaunchHasNoneFailed(count, limit);
    RunHasNoneFailed(Launch(count, limit), ss);
    ResolvedOrInFlight(p);
    PoolEnds(count, limit, ss);
    if Resolved(p) {
      LaunchIsSound(count, limit);
      LaunchLeft(count, limit);
      RunIsSound(Launch(count, limit), ss);
      RunCounts(Launch(count, limit), ss);
      NoneAwaited(p.runners);
      assert p.runners[0].Finished?;
    }
  }

  // ---- The nearest-rank percentile ----

  function Ceil(a: nat, b: nat): nat
    requires b > 0
  {
    (a + b - 1) / b
  }

  /** `None` is the `undefined` an index outside the samples yields. */
  function Percentile(sorted: seq<int>, p: nat): Option<int> {
    var rank := Ceil(p * |sorted|, 100) - 1;
    var index := if |sorted| - 1 < rank then |sorted| - 1 else rank;
    if 0 <= index < |sorted| then Some(sorted[index]) else None
  }

  function AtMost(xs: seq<int>, v: int): nat {
    if xs == [] then 0 else AtMost(xs[..|xs| - 1], v) + if xs[|xs| - 1] <= v then 1 else 0
  }

  ghost predicate Sorted(xs: seq<int>) {
    forall i, j :: 0 <= i < j < |xs| ==> xs[i] <= xs[j]
  }

  /** In a sorted list, the elements at most `v` are a prefix. */
  lemma {:induction false} AtMostIsPrefix(xs: seq<int>, v: int, n: nat)
    requires Sorted(xs) && n <= |xs|
    requires forall i :: 0 <= i < n ==> xs[i] <= v
    requires forall i :: n <= i < |xs| ==> xs[i] > v
    ensures AtMost(xs, v) == n
    decreases |xs|
  {
    if xs != [] {
      var m := |xs| - 1;
      AtMostIsPrefix(xs[..m], v, if n > m then m else n);
    }
  }

  lemma {:induction false} AtMostBounds(xs: seq<int>, v: int, k: nat)
    requires Sorted(xs) && k < |xs|
    ensures xs[k] <= v ==> AtMost(xs, v) >= k + 1
    ensures v < xs[k] ==> AtMost(xs, v) <= k
    decreases |xs|
  {
    var m := |xs| - 1;
    if k < m {
      AtMostBounds(xs[..m], v, k);
    } else {
      AtMostSize(xs[..m], v);
      if xs[k] <= v {
        AtMostIsPrefix(xs, v, |xs|);
      }
    }
  }

  lemma {:induction false} AtMostSize(xs: seq<int>, v: int)
    ensures AtMost(xs, v) <= |xs|
  {
    if xs != [] {
      AtMostSize(xs[..|xs| - 1], v);
    }
  }

  lemma RankSplits(sorted: seq<int>, rank: nat, w: int)
    requires Sorted(sorted) && 1 <= rank <= |sorted|
    ensures w >= sorted[rank - 1] ==> AtMost(sorted, w) >= rank
    ensures w < sorted[rank - 1] ==> AtMost(sorted, w) <= rank - 1
  {
    AtMostBounds(sorted, w, rank - 1);
  }

  /** For a percentage from 1 to 100 of some sorted samples, the result is the least sample that
      at least `p` percent of them do not exceed. */
  lemma PercentileIsNearestRank(sorted: seq<int>, p: nat, w: int)
    requires Sorted(sorted) && sorted != [] && 1 <= p <= 100
    ensures Percentile(sorted, p).Some? && Percentile(sorted, p).value in sorted
    ensures w >= Percentile(sorted, p).value <==> 100 * AtMost(sorted, w) >= p * |sorted|
  {
    var rank := Ceil(p * |sorted|, 100);
    RankBounds(p, |sorted|);
    RankSplits(sorted, rank, w);
    Threshold(AtMost(sorted, w), rank, p * |sorted|);
  }

  lemma Threshold(a: nat, rank: nat, total: int)
    requires 100 * (rank - 1) < total <= 100 * rank
    ensures a >= rank <==> 100 * a >= total
  {
  }

  lemma RankBounds(p: nat, n: nat)
    requires n >= 1 && 1 <= p <= 100
    ensures var rank := Ceil(p * n, 100);
            1 <= rank <= n && 100 * (rank - 1) < p * n <= 100 * rank
  {
    assert p * n >= 1;
    assert p * n <= 100 * n;
  }
}
