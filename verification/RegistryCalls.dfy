/** What a caller of the worker registry can rely on: when a registration succeeds and what it
    leaves behind, and what a whole `unregister` call does, told by its two awaited outcomes. */
module RegistryCalls {
  import opened Wrappers
  import opened JsMaps
  import opened Networks
  import opened WorkerRegistries
  import opened QueueLifecycles
  import opened Runtimes
  import opened Conservation

  /** The connections opened between two states of the world. */
  ghost predicate OpenedBetween(n: Net, n': Net, c: nat) {
    n.issued <= c < n'.issued
  }

  /** A registration that succeeded has mapped its name, which was free, to a new worker on a
      connection of its own that is open, and left every other name alone. One that failed has
      changed no name, and what it opened is released. */
  ghost predicate LeavesBehind(w: Workers, n: Net, name: string, r: Registered) {
    && (r.result.Ok? ==>
          && OpenedBetween(n, r.net, r.result.value.connection)
          && Get(r.workers.entries, name) == Some(WorkerEntry(r.result.value, r.result.value.connection))
          && (forall other :: other != name ==> Get(r.workers.entries, other) == Get(w.entries, other))
          && r.net.released == n.released && r.net.log == n.log)
    && (r.result.Err? ==>
          && r.workers == w
          && forall c :: OpenedBetween(n, r.net, c) ==> c in r.net.released && Disconnect(Caller, c) in r.net.log)
    && r.workers.calls == w.calls
  }

  lemma RegistersIff(w: Workers, n: Net, name: string, a: Attempt)
    ensures var r := RegisterStep(w, n, name, a);
            && (r.result.Ok? <==> Get(w.entries, name) == None && a.optionsValid && a.constructs)
            && (r.result == Err(DuplicateProcessor) <==> Get(w.entries, name) != None)
            && LeavesBehind(w, n, name, r)
  {
    var r := RegisterStep(w, n, name, a);
    if r.result.Ok? {
      forall other
        ensures Get(r.workers.entries, other)
             == if other == name then Some(WorkerEntry(r.result.value, n.issued)) else Get(w.entries, other)
      {
        GetAfterSet(w.entries, name, WorkerEntry(r.result.value, n.issued), other);
      }
    }
  }

  /** A sandboxed registration needs a valid processor file besides, and reports a file that is not
      valid before it looks at the name. */
  lemma SandboxedRegistersIff(w: Workers, n: Net, name: string, fileValid: bool, a: Attempt)
    ensures var r := RegisterSandboxedStep(w, n, name, fileValid, a);
            && (r.result.Ok? <==> fileValid && Get(w.entries, name) == None && a.optionsValid && a.constructs)
            && (r.result == Err(DuplicateProcessor) <==> fileValid && Get(w.entries, name) != None)
            && LeavesBehind(w, n, name, r)
  {
    RegistersIff(w, n, name, a);
  }

  /** The events of an `unregister` call from its start to its end. */
  function WholeCall(id: nat, name: string, closes: bool, quits: bool): seq<Event> {
    [Unregister(name)] + ([Resume(id, closes)] + if closes then [Resume(id, quits)] + [Resume(id, true)] else [])
  }

  /** What it asks BullMQ and Redis to do, in order. */
  function CallsMade(entry: WorkerEntry, closes: bool, quits: bool): seq<Effect> {
    [CloseWorker(Caller, entry.worker)]
    + if !closes then []
      else [Quit(Caller, entry.connection)] + if quits then [] else [Disconnect(Caller, entry.connection)]
  }

  lemma ClosedCall(s: State, id: nat, quits: bool)
    requires id in s.workers.calls && s.workers.calls[id].Quitting?
    ensures var call := s.workers.calls[id];
            var s' := Run(s, [Resume(id, quits)] + [Resume(id, true)]);
            && s'.workers.entries == Delete(s.workers.entries, call.name) && s'.workers.calls == s.workers.calls - {id}
            && s'.net.log == s.net.log + (if quits then [] else [Disconnect(Caller, call.entry.connection)])
            && s'.net.released == s.net.released + {call.entry.connection}
  {
    RunCons(s, Resume(id, quits), [Resume(id, true)]);
    RunCons(Step(s, Resume(id, quits)), Resume(id, true), []);
  }

  lemma FailedCall(s: State, id: nat)
    requires id in s.workers.calls && s.workers.calls[id].Closing?
    ensures var s' := Run(s, [Resume(id, false)] + []);
            s'.workers.entries == s.workers.entries && s'.workers.calls == s.workers.calls - {id} && s'.net == s.net
  {
    RunCons(s, Resume(id, false), []);
  }

  lemma OpenedCall(s: State, name: string)
    requires Sound(s) && Get(s.workers.entries, name).Some?
    ensures var entry, id, s' := Get(s.workers.entries, name).value, s.workers.nextCall, Step(s, Unregister(name));
            && id !in s.workers.calls && s'.workers.calls == s.workers.calls[id := Closing(name, entry)]
            && s'.workers.entries == s.workers.entries && s'.net == Emitted(s.net, CloseWorker(Caller, entry.worker))
  {
  }

  /** A whole `unregister` call of a registered queue closes its worker first. If that rejects, the
      queue stays registered and its connection open; otherwise the connection is quit, and
      disconnected if that rejects, and then the name is free again. Nothing else changes. */
  lemma UnregisterRuns(s: State, name: string, closes: bool, quits: bool)
    requires Sound(s) && Get(s.workers.entries, name).Some?
    ensures var entry := Get(s.workers.entries, name).value;
            var s' := Run(s, WholeCall(s.workers.nextCall, name, closes, quits));
            && s'.net.log == s.net.log + CallsMade(entry, closes, quits)
            && s'.net.released == (if closes then s.net.released + {entry.connection} else s.net.released)
            && (forall other :: Get(s'.workers.entries, other)
                                == if other == name && closes then None else Get(s.workers.entries, other))
            && s'.workers.calls == s.workers.calls
  {
    var entry, id := Get(s.workers.entries, name).value, s.workers.nextCall;
    var s1 := Step(s, Unregister(name));
    OpenedCall(s, name);
    RunCons(s, Unregister(name), WholeCall(id, name, closes, quits)[1..]);
    if closes {
      var s2 := Step(s1, Resume(id, true));
      assert s2.workers.calls[id] == Quitting(name, entry);
      RunCons(s1, Resume(id, true), [Resume(id, quits)] + [Resume(id, true)]);
      ClosedCall(s2, id, quits);
      assert s2.workers.calls - {id} == s.workers.calls;
      forall other ensures Get(Delete(s.workers.entries, name), other)
                        == if other == name then None else Get(s.workers.entries, other) {
        GetAfterDelete(s.workers.entries, name, other);
      }
    } else {
      FailedCall(s1, id);
      assert s1.workers.calls - {id} == s.workers.calls;
    }
  }
}
