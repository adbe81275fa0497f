/** Where the Queue-role client comes from, who owns it, and how bootstrap waits for it. */
module ConnectionResolvers {
  import opened Wrappers
  import opened Networks

  datatype Mode = ModeA | ModeB

  datatype InitError = ConnectionInvalid | RequiresNullRetries | ClientFailed | ConnectionTimeout

  /** What an ioredis client or the pending timer can tell a waiting `init`. */
  datatype Signal = Ready | Failed | Timeout

  /** The listeners and timer `waitReady` holds, and every time its promise was settled. */
  datatype Waiter = Waiter(onReady: bool, onError: bool, timer: bool, settled: seq<Result<(), InitError>>)

  const IDLE := Waiter(false, false, false, [])
  const WAITING := Waiter(true, true, true, [])

  /** A signal nobody listens for does nothing; one that is heard cleans up, then settles. */
  function Signalled(w: Waiter, x: Signal): Waiter {
    match x
    case Ready => if w.onReady then Waiter(false, false, false, w.settled + [Ok(())]) else w
    case Failed => if w.onError then Waiter(false, false, false, w.settled + [Err(ClientFailed)]) else w
    case Timeout => if w.timer then Waiter(false, false, false, w.settled + [Err(ConnectionTimeout)]) else w
  }

  function Signals(w: Waiter, xs: seq<Signal>): Waiter
    decreases |xs|
  {
    if xs == [] then w else Signals(Signalled(w, xs[0]), xs[1..])
  }

  function Verdict(x: Signal): Result<(), InitError> {
    match x
    case Ready => Ok(())
    case Failed => Err(ClientFailed)
    case Timeout => Err(ConnectionTimeout)
  }

  lemma {:induction false} SettledIsDeaf(w: Waiter, xs: seq<Signal>)
    requires !w.onReady && !w.onError && !w.timer
    ensures Signals(w, xs) == w
    decreases |xs|
  {
    if xs != [] {
      SettledIsDeaf(w, xs[1..]);
    }
  }

  /** Whatever follows the first signal, `waitReady` settles once, by that signal, and leaves no
      listener and no timer behind. */
  lemma WaitSettlesOnce(xs: seq<Signal>)
    requires xs != []
    ensures Signals(WAITING, xs) == Waiter(false, false, false, [Verdict(xs[0])])
  {
    SettledIsDeaf(Signalled(WAITING, xs[0]), xs[1..]);
  }

  /** `initModeA` over a network: an unusable client is refused before anything is opened, and
      the probe is disconnected whether or not it passes. */
  function InitAStep(n: Net, usable: bool, nullRetries: bool): (Net, Result<(), InitError>) {
    if !usable then (n, Err(ConnectionInvalid))
    else
      (Disconnected(Duplicated(n), Bootstrap, n.issued),
       if nullRetries then Ok(()) else Err(RequiresNullRetries))
  }

  /** The network the services start on once `init` has succeeded. */
  function Booted(mode: Mode): Net {
    var start := Net(1, {}, [], 0);
    if mode == ModeA then InitAStep(start, true, true).0 else start
  }

  class ConnectionResolver {
    const network: Network
    var client: Option<nat>
    var mode: Option<Mode>
    var waiter: Waiter

    constructor (network: Network)
      ensures client == None && mode == None && waiter == IDLE && this.network == network
    {
      this.network := network;
      client, mode, waiter := None, None, IDLE;
    }

    method InitModeA(usable: bool, nullRetries: bool) returns (r: Result<(), InitError>)
      modifies this, network
      ensures mode == Some(ModeA) && client == Some(ROLE) && waiter == old(waiter)
      ensures (network.net, r) == InitAStep(old(network.net), usable, nullRetries)
    {
      mode, client := Some(ModeA), Some(ROLE);
      if !usable {
        return Err(ConnectionInvalid);
      }
      var probe := network.Duplicate();
      network.HardDisconnect(Bootstrap, probe);
      r := if nullRetries then Ok(()) else Err(RequiresNullRetries);
    }

    /** `init` in Mode B up to its `await`. A client that is ready already is not waited for, and no
        signal is heard; otherwise the first signal, whichever it is, settles `init` for good. */
    method InitModeB(ready: bool)
      modifies this
      ensures mode == Some(ModeB) && client == Some(ROLE)
      ensures ready ==> forall xs :: Signals(waiter, xs) == IDLE
      ensures !ready ==> forall xs :: xs != [] ==> Signals(waiter, xs) == Waiter(false, false, false, [Verdict(xs[0])])
    {
      mode, client := Some(ModeB), Some(ROLE);
      waiter := if ready then IDLE else WAITING;
      forall xs ensures Signals(IDLE, xs) == IDLE {
        SettledIsDeaf(IDLE, xs);
      }
      forall xs | xs != [] ensures Signals(WAITING, xs) == Waiter(false, false, false, [Verdict(xs[0])]) {
        WaitSettlesOnce(xs);
      }
    }

    method Hear(x: Signal)
      modifies this
      ensures waiter == Signalled(old(waiter), x) && client == old(client) && mode == old(mode)
    {
      match x
      case Ready => if waiter.onReady { waiter := waiter.(settled := waiter.settled + [Ok(())]); Cleanup(); }
      case Failed =>
        if waiter.onError { waiter := waiter.(settled := waiter.settled + [Err(ClientFailed)]); Cleanup(); }
      case Timeout =>
        if waiter.timer { waiter := waiter.(settled := waiter.settled + [Err(ConnectionTimeout)]); Cleanup(); }
    }

    method Cleanup()
      modifies this
      ensures waiter == Waiter(false, false, false, old(waiter.settled)) && client == old(client) && mode == old(mode)
    {
      waiter := Waiter(false, false, false, waiter.settled);
    }
  }
}
