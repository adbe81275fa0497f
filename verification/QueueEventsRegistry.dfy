/** The queue-events registry: at most one `QueueEvents` and one duplicate per queue name. */
module QueueEventsRegistries {
  import opened Wrappers
  import opened JsMaps
  import opened Networks

  datatype EventsState = EventsState(events: JsMap<string, QueueEvents>, connections: JsMap<string, nat>)

  /** `result` is `None` when the BullMQ constructor threw. */
  datatype Observed = Observed(events: EventsState, net: Net, result: Option<QueueEvents>)

  function GetOrCreateStep(e: EventsState, n: Net, name: string, constructs: bool): Observed {
    if Has(e.events, name) then Observed(e, n, Get(e.events, name))
    else if !constructs then Observed(e, Disconnected(Duplicated(n), Caller, n.issued), None)
    else
      Observed(EventsState(Set(e.events, name, QueueEvents(n.issued)), Set(e.connections, name, n.issued)),
               Duplicated(n), Some(QueueEvents(n.issued)))
  }

  class QueueEventsRegistry {
    const network: Network
    var events: JsMap<string, QueueEvents>
    var connections: JsMap<string, nat>

    constructor (network: Network)
      ensures Model() == EventsState([], []) && this.network == network
    {
      this.network := network;
      events, connections := [], [];
    }

    ghost function Model(): EventsState
      reads this
    {
      EventsState(events, connections)
    }

    method GetOrCreate(name: string, constructs: bool) returns (r: Option<QueueEvents>)
      modifies this, network
      ensures Observed(Model(), network.net, r) == GetOrCreateStep(old(Model()), old(network.net), name, constructs)
    {
      if Has(events, name) {
        return Get(events, name);
      }
      var connection := network.Duplicate();
      if !constructs {
        network.HardDisconnect(Caller, connection);
        return None;
      }
      events := Set(events, name, QueueEvents(connection));
      connections := Set(connections, name, connection);
      return Some(QueueEvents(connection));
    }

    /** A copy, unlike `events`, which the shutdown iterates live. */
    function GetConnections(): seq<nat>
      reads this
    {
      Values(connections)
    }
  }
}
