/** No duplicated connection is ever lost: whatever runs, each one the library opened is released
    or still listed by the registry the shutdown will take it from. */
module Conservation {
  import opened Wrappers
  import opened JsMaps
  import opened Networks
  import opened WorkerRegistries
  import opened QueueLifecycles
  import opened Runtimes
  import opened Moments

  ghost predicate Conserved(s: State) {
    forall c :: OwnDuplicate(s, c) ==> c in s.net.released || Tracked(s, c)
  }

  ghost predicate InFlight(w: Workers, name: string) {
    exists id :: id in w.calls && w.calls[id].name == name
  }

  /** Every suspended `unregister` still stands for the entry its name is mapped to, alone. */
  ghost predicate CallsOwn(s: State) {
    var w := s.workers;
    && (forall id :: id in w.calls ==>
          Get(w.entries, w.calls[id].name) == Some(w.calls[id].entry)
          && (w.calls[id].Deleting? ==> w.calls[id].entry.connection in s.net.released))
    && (forall id, id' :: id in w.calls && id' in w.calls && id != id' ==> w.calls[id].name != w.calls[id'].name)
  }

  /** No `unregister` of a queue begins while another one of that queue has not returned. */
  ghost predicate Disciplined(s: State, es: seq<Event>)
    decreases |es|
  {
    es != [] ==>
      && (es[0].Unregister? ==> !InFlight(s.workers, es[0].name))
      && Disciplined(Step(s, es[0]), es[1..])
  }

  lemma FindUnique<V(!new)>(m: JsMap<string, V>, k: string, i: nat)
    requires UniqueKeys(m) && i < |m| && m[i].Full? && m[i].key == k
    ensures Find(m, k) == i
  {
  }

  lemma GetAfterSet<V>(m: JsMap<string, V>, k: string, v: V, k': string)
    requires !Has(m, k)
    ensures Get(Set(m, k, v), k') == if k' == k then Some(v) else Get(m, k')
  {
    var m' := Set(m, k, v);
    assert forall j :: 0 <= j < |m| ==> m'[j] == m[j];
    assert m'[|m|] == Full(k, v);
  }

  lemma GetAfterDelete<V(!new)>(m: JsMap<string, V>, k: string, k': string)
    requires UniqueKeys(m)
    ensures Get(Delete(m, k), k') == if k' == k then None else Get(m, k')
  {
    var m' := Delete(m, k);
    if Has(m', k') {
      FindUnique(m, k', Find(m', k'));
    }
    if k' != k && Has(m, k') {
      FindUnique(m', k', Find(m, k'));
    }
  }

  lemma HoldsAfterSet<V(!new)>(m: JsMap<string, V>, k: string, v: V, held: V)
    requires !Has(m, k)
    ensures Holds(Set(m, k, v), held) <==> held == v || Holds(m, held)
  {
    var m' := Set(m, k, v);
    assert m'[|m|] == Full(k, v);
    if Holds(m, held) {
      var i :| 0 <= i < |m| && m[i].Full? && m[i].value == held;
      assert m'[i] == m[i];
    }
  }

  lemma RegisterConserves(s: State, name: string, a: Attempt)
    requires Sound(s) && Conserved(s) && CallsOwn(s)
    ensures Conserved(Step(s, Register(name, a))) && CallsOwn(Step(s, Register(name, a)))
  {
    var s' := Step(s, Register(name, a));
    if s'.workers.entries != s.workers.entries {
      var entry := WorkerEntry(Worker(s.net.issued), s.net.issued);
      forall held ensures Holds(s'.workers.entries, held) <==> held == entry || Holds(s.workers.entries, held) {
        HoldsAfterSet(s.workers.entries, name, entry, held);
      }
      forall id | id in s'.workers.calls
        ensures Get(s'.workers.entries, s.workers.calls[id].name) == Some(s.workers.calls[id].entry)
      {
        GetAfterSet(s.workers.entries, name, entry, s.workers.calls[id].name);
      }
      forall c | OwnDuplicate(s', c) ensures c in s'.net.released || Tracked(s', c) {
        if c == s.net.issued {
          assert Holds(s'.workers.entries, entry);
        } else {
          assert OwnDuplicate(s, c);
        }
      }
    } else {
      forall c | OwnDuplicate(s', c) ensures c in s'.net.released || Tracked(s', c) {
        assert c == s.net.issued || OwnDuplicate(s, c);
      }
    }
  }

  lemma ObserveConserves(s: State, name: string, constructs: bool)
    requires Sound(s) && Conserved(s)
    ensures Conserved(Step(s, Observe(name, constructs)))
  {
    var s' := Step(s, Observe(name, constructs));
    FindSameKeys(s.events.events, s.events.connections, name);
    forall c | OwnDuplicate(s', c) ensures c in s'.net.released || Tracked(s', c) {
      if !Has(s.events.events, name) && constructs {
        HoldsAfterSet(s.events.connections, name, s.net.issued, c);
      }
      assert c == s.net.issued || OwnDuplicate(s, c);
    }
  }

  /** Deleting an entry whose connection is released loses nothing. */
  lemma DeleteConserves(s: State, id: nat, ok: bool)
    requires Sound(s) && Conserved(s) && CallsOwn(s)
    requires id in s.workers.calls && s.workers.calls[id].Deleting?
    ensures Conserved(Step(s, Resume(id, ok))) && CallsOwn(Step(s, Resume(id, ok)))
  {
    var s' := Step(s, Resume(id, ok));
    var m, m' := s.workers.entries, s'.workers.entries;
    var k := s.workers.calls[id].name;
    forall c | OwnDuplicate(s', c) ensures c in s'.net.released || Tracked(s', c) {
      assert OwnDuplicate(s, c);
      if TracksWorker(s.workers, c) {
        var held :| Holds(m, held) && held.connection == c;
        var i :| 0 <= i < |m| && m[i].Full? && m[i].value == held;
        assert i == Find(m, k) || m'[i] == m[i];
        assert i != Find(m, k) ==> Holds(m', held);
      }
    }
    forall id' | id' in s'.workers.calls
      ensures Get(m', s.workers.calls[id'].name) == Some(s.workers.calls[id'].entry)
    {
      GetAfterDelete(m, k, s.workers.calls[id'].name);
    }
  }

  /** A step that leaves the registries alone and opens nothing can only release. */
  lemma FrameConserves(s: State, s': State)
    requires Conserved(s) && s'.net.issued == s.net.issued && s.net.released <= s'.net.released
    requires s'.workers.entries == s.workers.entries && s'.events == s.events
    ensures Conserved(s')
  {
    forall c | OwnDuplicate(s', c) ensures c in s'.net.released || Tracked(s', c) {
      assert OwnDuplicate(s, c);
    }
  }

  lemma ClosingConserves(s: State, id: nat, ok: bool)
    requires Conserved(s) && CallsOwn(s)
    requires id in s.workers.calls && s.workers.calls[id].Closing?
    ensures Conserved(Step(s, Resume(id, ok))) && CallsOwn(Step(s, Resume(id, ok)))
  {
    FrameConserves(s, Step(s, Resume(id, ok)));
  }

  lemma QuittingConserves(s: State, id: nat, ok: bool)
    requires Conserved(s) && CallsOwn(s)
    requires id in s.workers.calls && s.workers.calls[id].Quitting?
    ensures Conserved(Step(s, Resume(id, ok))) && CallsOwn(Step(s, Resume(id, ok)))
  {
    FrameConserves(s, Step(s, Resume(id, ok)));
  }

  lemma ResumeConserves(s: State, id: nat, ok: bool)
    requires Sound(s) && Conserved(s) && CallsOwn(s)
    ensures Conserved(Step(s, Resume(id, ok))) && CallsOwn(Step(s, Resume(id, ok)))
  {
    if id in s.workers.calls {
      match s.workers.calls[id]
      case Closing(_, _) => ClosingConserves(s, id, ok);
      case Quitting(_, _) => QuittingConserves(s, id, ok);
      case Deleting(_, _) => DeleteConserves(s, id, ok);
    }
  }

  lemma QuietStepFrame(s: State, e: Event)
    requires !e.Register? && !e.RegisterSandboxed? && !e.Observe? && !e.Resume? && !e.Unregister?
    ensures Step(s, e).workers == s.workers && Step(s, e).events == s.events
    ensures Step(s, e).net.issued == s.net.issued
  {
  }

  lemma StepConserves(s: State, e: Event)
    requires Sound(s) && Conserved(s) && CallsOwn(s)
    requires e.Unregister? ==> !InFlight(s.workers, e.name)
    ensures Conserved(Step(s, e)) && CallsOwn(Step(s, e))
  {
    match e
    case Register(name, a) => RegisterConserves(s, name, a);
    case RegisterSandboxed(name, fileValid, a) => RegisterConserves(s, name, a);
    case Observe(name, constructs) => ObserveConserves(s, name, constructs);
    case Resume(id, ok) => ResumeConserves(s, id, ok);
    case Unregister(_) => FrameConserves(s, Step(s, e));
    case _ =>
      QuietStepFrame(s, e);
      StepKeepsNet(s, e);
      FrameConserves(s, Step(s, e));
  }

  lemma {:induction false} RunConserves(s: State, es: seq<Event>)
    requires Sound(s) && Conserved(s) && CallsOwn(s) && Disciplined(s, es)
    ensures Sound(Run(s, es)) && Conserved(Run(s, es)) && CallsOwn(Run(s, es))
    decreases |es|
  {
    if es != [] {
      StepConserves(s, es[0]);
      StepKeepsSound(s, es[0]);
      RunConserves(Step(s, es[0]), es[1..]);
    }
  }

  /** In every state an application can reach without overlapping `unregister` calls of one
      queue, each duplicate is released or tracked. */
  lemma DuplicatesAreConserved(cfg: Config, es: seq<Event>)
    requires Disciplined(Boot(cfg), es)
    ensures Conserved(Run(Boot(cfg), es))
  {
    BootSound(cfg);
    RunConserves(Boot(cfg), es);
  }

  // ---- When an `unregister` call is safe ----

  ghost predicate NoUnregister(es: seq<Event>) {
    forall i :: 0 <= i < |es| ==> !es[i].Unregister?
  }

  lemma {:induction false} NoUnregisterIsDisciplined(s: State, es: seq<Event>)
    requires NoUnregister(es)
    ensures Disciplined(s, es)
    decreases |es|
  {
    if es != [] {
      NoUnregisterIsDisciplined(Step(s, es[0]), es[1..]);
    }
  }

  /** The resumptions that take a suspended call to its end when nothing fails. */
  function Completion(id: nat, call: Call): seq<Event> {
    var resume := Resume(id, true);
    match call
    case Closing(_, _) => [resume, resume, resume]
    case Quitting(_, _) => [resume, resume]
    case Deleting(_, _) => [resume]
  }

  lemma CompletionDeletes(s: State, id: nat)
    requires id in s.workers.calls
    ensures NoUnregister(Completion(id, s.workers.calls[id]))
    ensures var call := s.workers.calls[id];
            var s' := Run(s, Completion(id, call));
            && s'.workers
               == s.workers.(entries := Delete(s.workers.entries, call.name), calls := s.workers.calls - {id})
            && s'.events == s.events && s'.net.issued == s.net.issued
            && s'.net.released <= s.net.released + {call.entry.connection}
  {
    var r := Resume(id, true);
    var s1 := Step(s, r);
    var s2 := Step(s1, r);
    RunCons(s, r, [r, r]);
    RunCons(s, r, [r]);
    RunCons(s1, r, [r]);
    assert [r] + [r] == [r, r] && [r] + [r, r] == [r, r, r];
  }

  /** With two calls for one name in flight, the queue can be registered anew between their
      deletes, and the second delete then drops the new entry while its connection is open. */
  lemma OverlapLoses(s: State, a: nat, b: nat) returns (es: seq<Event>)
    requires Sound(s) && a in s.workers.calls && b in s.workers.calls && a != b
    requires s.workers.calls[a].name == s.workers.calls[b].name
    ensures NoUnregister(es) && !Conserved(Run(s, es))
  {
    var name := s.workers.calls[a].name;
    var first := Completion(a, s.workers.calls[a]);
    var s1 := Run(s, first);
    CompletionDeletes(s, a);
    RunKeepsSound(s, first);
    GetAfterDelete(s.workers.entries, name, name);
    var rest := SecondDeleteLoses(s1, b, name);
    RunAppend(s, first, rest);
    es := first + rest;
  }

  lemma SecondDeleteLoses(s: State, b: nat, name: string) returns (es: seq<Event>)
    requires Sound(s) && b in s.workers.calls && s.workers.calls[b].name == name && !Has(s.workers.entries, name)
    ensures NoUnregister(es) && !Conserved(Run(s, es))
  {
    var register := Register(name, Attempt(true, true));
    var s2 := Step(s, register);
    var entry := WorkerEntry(Worker(s.net.issued), s.net.issued);
    StepKeepsSound(s, register);
    GetAfterSet(s.workers.entries, name, entry, name);

    var last := Completion(b, s2.workers.calls[b]);
    CompletionDeletes(s2, b);
    RunKeepsSound(s2, last);
    RunCons(s, register, last);
    es := [register] + last;
    NewestIsLost(s2, Run(s2, last), name, entry);
  }

  lemma NewestIsLost(s: State, s': State, name: string, entry: WorkerEntry)
    requires Sound(s) && Sound(s') && Get(s.workers.entries, name) == Some(entry)
    requires s.net.issued == entry.connection + 1 && entry.connection !in s.net.released
    requires forall i :: 0 <= i < |s.workers.entries| && s.workers.entries[i].Full? && s.workers.entries[i].key != name
                         ==> s.workers.entries[i].value.connection != entry.connection
    requires s'.workers.entries == Delete(s.workers.entries, name)
    requires s'.events == s.events && s'.net.issued == s.net.issued && entry.connection !in s'.net.released
    requires !Holds(s.events.connections, entry.connection)
    ensures !Conserved(s')
  {
    assert OwnDuplicate(s', entry.connection);
    var m, m' := s.workers.entries, s'.workers.entries;
    forall i | 0 <= i < |m'| && m'[i].Full? ensures m'[i].value.connection != entry.connection {
      assert m[i] == m'[i];
      FindUnique(m, m[i].key, i);
    }
  }

  /** After any disciplined run, calling `unregister` is safe, whatever disciplined run follows,
      exactly when no call for that queue is in flight: what the caller can check beforehand. */
  lemma UnregisterIsSafeIff(cfg: Config, before: seq<Event>, name: string)
    requires Disciplined(Boot(cfg), before)
    ensures var s := Run(Boot(cfg), before);
            (forall es | Disciplined(Step(s, Unregister(name)), es) :: Conserved(Run(Step(s, Unregister(name)), es)))
            <==> !InFlight(s.workers, name)
  {
    var s := Run(Boot(cfg), before);
    var s' := Step(s, Unregister(name));
    BootSound(cfg);
    RunConserves(Boot(cfg), before);
    StepKeepsSound(s, Unregister(name));
    if InFlight(s.workers, name) {
      var a :| a in s.workers.calls && s.workers.calls[a].name == name;
      var es := OverlapLoses(s', a, s.workers.nextCall);
      NoUnregisterIsDisciplined(s', es);
    } else {
      StepConserves(s, Unregister(name));
      forall es | Disciplined(s', es) ensures Conserved(Run(s', es)) {
        RunConserves(s', es);
      }
    }
  }

  // ---- What the first hook releases ----

  /** Every duplicate there was when the shutdown copied the tracked ones is released, or still
      ahead of the loop that releases them. */
  ghost predicate DupesCover(s: State) {
    Rank(s.life.phase) >= 4 ==>
      && s.life.history.issuedAtDupes <= s.net.issued
      && forall c :: ROLE < c < s.life.history.issuedAtDupes ==> c in s.net.released || c in s.life.dupes
  }

  lemma StepKeepsCover(s: State, e: Event)
    requires Sound(s) && Conserved(s) && DupesCover(s)
    ensures DupesCover(Step(s, e))
  {
    StepKeepsNet(s, e);
    if e.Advance? && s.life.phase.DupesStart? {
      forall c | ROLE < c < s.net.issued ensures c in s.net.released || c in Step(s, e).life.dupes {
        assert OwnDuplicate(s, c);
        TrackedConnections(s, c);
      }
    }
  }

  lemma {:induction false} RunKeepsCover(s: State, es: seq<Event>)
    requires Sound(s) && Conserved(s) && CallsOwn(s) && DupesCover(s) && Disciplined(s, es)
    ensures DupesCover(Run(s, es))
    decreases |es|
  {
    if es != [] {
      StepConserves(s, es[0]);
      StepKeepsSound(s, es[0]);
      StepKeepsCover(s, es[0]);
      RunKeepsCover(Step(s, es[0]), es[1..]);
    }
  }

  lemma CoveredIsReleased(s: State, c: nat)
    requires Sound(s) && DupesCover(s) && Rank(s.life.phase) >= Rank(Destroyed)
    requires ROLE < c < s.life.history.issuedAtDupes
    ensures c in s.net.released
  {
    if c in s.life.dupes {
      var i :| 0 <= i < |s.life.dupes| && s.life.dupes[i] == c;
      assert Released(s.life.phase, i);
    }
  }

  /** Once `onModuleDestroy` has returned, every duplicate opened before it copied the tracked
      connections is released, however the `quit()` calls ended and whatever ran in between. */
  lemma ModuleDestroyReleasesDuplicates(cfg: Config, es: seq<Event>, c: nat)
    requires Disciplined(Boot(cfg), es)
    requires Rank(Run(Boot(cfg), es).life.phase) >= Rank(Destroyed)
    requires ROLE < c < AtCopy(cfg, es).net.issued
    ensures c in Run(Boot(cfg), es).net.released
  {
    BootSound(cfg);
    RunConserves(Boot(cfg), es);
    RunKeepsCover(Boot(cfg), es);
    CopyIs(cfg, es);
    CoveredIsReleased(Run(Boot(cfg), es), c);
  }
}
