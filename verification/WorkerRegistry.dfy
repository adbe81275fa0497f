/** The worker registry: one worker and one duplicated connection per queue name. `unregister`
    is asynchronous, so a call that has not returned is kept as the point it is suspended at. */
module WorkerRegistries {
  import opened Wrappers
  import opened JsMaps
  import opened Networks

  datatype WorkerEntry = WorkerEntry(worker: Worker, connection: nat)

  datatype Call =
    | Closing(name: string, entry: WorkerEntry)
    | Quitting(name: string, entry: WorkerEntry)
    | Deleting(name: string, entry: WorkerEntry)

  /** What the option validators and the BullMQ constructor answer for one registration. */
  datatype Attempt = Attempt(optionsValid: bool, constructs: bool)

  datatype RegisterError = DuplicateProcessor | RegistrationFailed

  datatype Workers = Workers(entries: JsMap<string, WorkerEntry>, calls: map<nat, Call>, nextCall: nat)

  datatype Registered = Registered(workers: Workers, net: Net, result: Result<Worker, RegisterError>)

  datatype Suspended = Suspended(workers: Workers, net: Net)

  function RegisterStep(w: Workers, n: Net, name: string, a: Attempt): Registered {
    if Has(w.entries, name) then Registered(w, n, Err(DuplicateProcessor))
    else if !a.optionsValid then Registered(w, n, Err(RegistrationFailed))
    else if !a.constructs then
      Registered(w, Disconnected(Duplicated(n), Caller, n.issued), Err(RegistrationFailed))
    else
      var entry := WorkerEntry(Worker(n.issued), n.issued);
      Registered(w.(entries := Set(w.entries, name, entry)), Duplicated(n), Ok(entry.worker))
  }

  /** The sandboxed path looks at the processor file before it looks at the registry. */
  function RegisterSandboxedStep(w: Workers, n: Net, name: string, fileValid: bool, a: Attempt): Registered {
    if !fileValid then Registered(w, n, Err(RegistrationFailed)) else RegisterStep(w, n, name, a)
  }

  /** From the call of `unregister` to its first `await`. */
  function UnregisterStep(w: Workers, n: Net, name: string): Suspended {
    match Get(w.entries, name)
    case None => Suspended(w, n)
    case Some(entry) =>
      Suspended(w.(calls := w.calls[w.nextCall := Closing(name, entry)], nextCall := w.nextCall + 1),
                Emitted(n, CloseWorker(Caller, entry.worker)))
  }

  /** What call `id` does when the promise it waits for resolves (`ok`) or rejects. */
  function ResumeStep(w: Workers, n: Net, id: nat, ok: bool): Suspended {
    if id !in w.calls then Suspended(w, n)
    else
      match w.calls[id]
      case Closing(name, entry) =>
        if ok then
          Suspended(w.(calls := w.calls[id := Quitting(name, entry)]),
                    Emitted(n, Quit(Caller, entry.connection)))
        else Suspended(w.(calls := w.calls - {id}), n)
      case Quitting(name, entry) =>
        Suspended(w.(calls := w.calls[id := Deleting(name, entry)]),
                  QuitSettled(n, Caller, entry.connection, ok))
      case Deleting(name, _) =>
        Suspended(w.(entries := Delete(w.entries, name), calls := w.calls - {id}), n)
  }

  function WorkersOf(entries: seq<WorkerEntry>): seq<Worker> {
    seq(|entries|, i requires 0 <= i < |entries| => entries[i].worker)
  }

  function ConnectionsOf(entries: seq<WorkerEntry>): seq<nat> {
    seq(|entries|, i requires 0 <= i < |entries| => entries[i].connection)
  }

  class WorkerRegistry {
    const network: Network
    var entries: JsMap<string, WorkerEntry>
    var calls: map<nat, Call>
    var nextCall: nat

    constructor (network: Network)
      ensures Model() == Workers([], map[], 0) && this.network == network
    {
      this.network := network;
      entries, calls, nextCall := [], map[], 0;
    }

    ghost function Model(): Workers
      reads this
    {
      Workers(entries, calls, nextCall)
    }

    method Register(name: string, a: Attempt) returns (r: Result<Worker, RegisterError>)
      modifies this, network
      ensures Registered(Model(), network.net, r) == RegisterStep(old(Model()), old(network.net), name, a)
    {
      if Has(entries, name) {
        return Err(DuplicateProcessor);
      }
      if !a.optionsValid {
        return Err(RegistrationFailed);
      }
      var connection := network.Duplicate();
      if !a.constructs {
        network.HardDisconnect(Caller, connection);
        return Err(RegistrationFailed);
      }
      entries := Set(entries, name, WorkerEntry(Worker(connection), connection));
      return Ok(Worker(connection));
    }

    method RegisterSandboxed(name: string, fileValid: bool, a: Attempt) returns (r: Result<Worker, RegisterError>)
      modifies this, network
      ensures Registered(Model(), network.net, r)
           == RegisterSandboxedStep(old(Model()), old(network.net), name, fileValid, a)
    {
      if !fileValid {
        return Err(RegistrationFailed);
      }
      r := Register(name, a);
    }

    method Unregister(name: string)
      modifies this, network
      ensures Suspended(Model(), network.net) == UnregisterStep(old(Model()), old(network.net), name)
    {
      match Get(entries, name)
      case None =>
      case Some(entry) =>
        network.Emit(CloseWorker(Caller, entry.worker));
        calls := calls[nextCall := Closing(name, entry)];
        nextCall := nextCall + 1;
    }

    method ResumeUnregister(id: nat, ok: bool)
      modifies this, network
      ensures Suspended(Model(), network.net) == ResumeStep(old(Model()), old(network.net), id, ok)
    {
      if id in calls {
        match calls[id]
        case Closing(name, entry) =>
          if ok {
            network.Emit(Quit(Caller, entry.connection));
            calls := calls[id := Quitting(name, entry)];
          } else {
            calls := calls - {id};
          }
        case Quitting(name, entry) =>
          network.SettleQuit(Caller, entry.connection, ok);
          calls := calls[id := Deleting(name, entry)];
        case Deleting(name, _) =>
          entries := Delete(entries, name);
          calls := calls - {id};
      }
    }

    /** A copy: iterating over it does not see later registrations. */
    function GetAll(): seq<Worker>
      reads this
    {
      WorkersOf(Values(entries))
    }

    function GetConnections(): seq<nat>
      reads this
    {
      ConnectionsOf(Values(entries))
    }
  }
}
