/** The per-name queue cache. Every producer and inspection call goes through `GetOrCreateQueue`;
    the shutdown iterates the same map live and empties it. */
module QueueServices {
  import opened Wrappers
  import opened JsMaps
  import opened Networks

  datatype QueueCache = QueueCache(queues: JsMap<string, Queue>, created: nat)

  /** `constructs` is false when `new Queue` throws, which caches nothing. */
  function UseStep(c: QueueCache, name: string, constructs: bool): QueueCache {
    if Has(c.queues, name) || !constructs then c
    else QueueCache(Set(c.queues, name, Queue(c.created)), c.created + 1)
  }

  function ClearStep(c: QueueCache): QueueCache {
    c.(queues := Clear(c.queues))
  }

  class QueueService {
    var queues: JsMap<string, Queue>
    var created: nat

    constructor ()
      ensures Model() == QueueCache([], 0)
    {
      queues, created := [], 0;
    }

    ghost function Model(): QueueCache
      reads this
    {
      QueueCache(queues, created)
    }

    /** `None` when the constructor threw: whatever is returned is what the cache holds. */
    method GetOrCreateQueue(name: string, constructs: bool) returns (q: Option<Queue>)
      modifies this
      ensures Model() == UseStep(old(Model()), name, constructs)
      ensures q == Get(queues, name) && (q == None <==> !Has(old(queues), name) && !constructs)
    {
      if Has(queues, name) {
        return Get(queues, name);
      }
      if !constructs {
        return None;
      }
      q := Some(Queue(created));
      queues := Set(queues, name, Queue(created));
      created := created + 1;
      SetThenGet(old(queues), name, q.value);
    }

    method ClearQueues()
      modifies this
      ensures Model() == ClearStep(old(Model()))
    {
      queues := Clear(queues);
    }
  }

  lemma SetThenGet<V>(m: JsMap<string, V>, name: string, v: V)
    requires !Has(m, name)
    ensures Get(Set(m, name, v), name) == Some(v)
  {
    var m' := Set(m, name, v);
    assert forall j :: 0 <= j < |m| ==> m'[j] == m[j];
    assert m'[|m|] == Full(name, v);
  }
}
