/** The world the services act on: Redis connections, the clock, and the teardown calls made so
    far. A connection is an identity; `ROLE` is the Queue-role client and every other identity
    below `issued` is a duplicate or the probe. */
module Networks {
  datatype Actor = Bootstrap | Caller | Shutdown

  /** A BullMQ object is told apart by the duplicate it was built on, a queue by a serial number. */
  datatype Worker = Worker(connection: nat)
  datatype QueueEvents = QueueEvents(connection: nat)
  datatype Queue = Queue(serial: nat)

  datatype Effect =
    | CloseWorker(actor: Actor, worker: Worker)
    | ForceWorker(forced: Worker)
    | CloseEvents(events: QueueEvents)
    | Quit(actor: Actor, connection: nat)
    | Disconnect(actor: Actor, connection: nat)
    | DrainQueue(queue: Queue)
    | CloseProducer
    | CloseQueue(queue: Queue)

  /** `released` holds the connections whose `quit()` resolved or that were disconnected. */
  datatype Net = Net(issued: nat, released: set<nat>, log: seq<Effect>, clock: nat)

  const ROLE: nat := 0

  function Duplicated(n: Net): Net {
    n.(issued := n.issued + 1)
  }

  function Emitted(n: Net, e: Effect): Net {
    n.(log := n.log + [e])
  }

  function Disconnected(n: Net, actor: Actor, connection: nat): Net {
    n.(released := n.released + {connection}, log := n.log + [Disconnect(actor, connection)])
  }

  /** `try { await c.quit() } catch { c.disconnect() }` once the `quit()` has settled. */
  function QuitSettled(n: Net, actor: Actor, connection: nat, ok: bool): Net {
    if ok then n.(released := n.released + {connection}) else Disconnected(n, actor, connection)
  }

  class Network {
    var net: Net

    constructor ()
      ensures net == Net(1, {}, [], 0)
    {
      net := Net(1, {}, [], 0);
    }

    method Duplicate() returns (connection: nat)
      modifies this
      ensures connection == old(net.issued) && net == Duplicated(old(net))
    {
      connection := net.issued;
      net := net.(issued := net.issued + 1);
    }

    method Emit(e: Effect)
      modifies this
      ensures net == Emitted(old(net), e)
    {
      net := net.(log := net.log + [e]);
    }

    method HardDisconnect(actor: Actor, connection: nat)
      modifies this
      ensures net == Disconnected(old(net), actor, connection)
    {
      Emit(Disconnect(actor, connection));
      net := net.(released := net.released + {connection});
    }

    method SettleQuit(actor: Actor, connection: nat, ok: bool)
      modifies this
      ensures net == QuitSettled(old(net), actor, connection, ok)
    {
      if ok {
        net := net.(released := net.released + {connection});
      } else {
        HardDisconnect(actor, connection);
      }
    }
  }
}
