/** A node's command queue and what handling a command does to the store (internal/supervisor/consumer.go). */
module Consumer {
  import opened Schema
  import opened Store
  import opened Ledger
  import Health

  // The store side of a start: a spawn refuses a missing deployment or pod, and looks at nothing else in the record
  // but its process.
  function Started(s: State, k: PodKey, r: Health.SpawnResult): State {
    if k in s.pods && k.deployment in s.deployments then s.(pods := s.pods[k := Health.AfterSpawn(s.pods[k], r)]) else s
  }

  // One command taken off a node's queue and handled.
  function Drained(s: State, n: NodeId, r: Health.SpawnResult): State {
    if Queue(s, n) == [] then s
    else
      var s' := s.(queues := s.queues[n := Queue(s, n)[1..]]);
      match Queue(s, n)[0]
      case StopPod(k) => Removed(s', k)
      case StartPod(k) => Started(s', k, r)
  }

  function DrainedBy(s: State, n: NodeId, results: seq<Health.SpawnResult>): State
    decreases |results|
  {
    if results == [] then s else DrainedBy(Drained(s, n, results[0]), n, results[1..])
  }

  lemma DrainTakesFirst(s: State, n: NodeId, r: Health.SpawnResult)
    requires Queue(s, n) != []
    ensures Queue(Drained(s, n, r), n) == Queue(s, n)[1..]
    ensures forall m :: m != n ==> Queue(Drained(s, n, r), m) == Queue(s, m)
  {
    hide Freed;
  }

  // Commands are handled in the order they were queued, each once, and only those of this node.
  lemma {:induction false} DrainsInOrder(s: State, n: NodeId, results: seq<Health.SpawnResult>)
    requires |results| <= |Queue(s, n)|
    ensures Queue(DrainedBy(s, n, results), n) == Queue(s, n)[|results|..]
    ensures forall m :: m != n ==> Queue(DrainedBy(s, n, results), m) == Queue(s, m)
    decreases |results|
  {
    hide Drained;
    if results != [] {
      DrainTakesFirst(s, n, results[0]);
      DrainsInOrder(Drained(s, n, results[0]), n, results[1..]);
      assert Queue(s, n)[1..][|results| - 1..] == Queue(s, n)[|results|..];
    }
  }

  // The consumer taking the oldest command; `r` is what the spawn of a start would come to.
  method HandleNext(c: Redis, n: NodeId, r: Health.SpawnResult)
    modifies c`queues, c`nodes, c`pods
    ensures c.View() == Drained(old(c.View()), n, r)
  {
    if n !in c.queues || c.queues[n] == [] {
      return;
    }
    var cmd := c.queues[n][0];
    c.queues := c.queues[n := c.queues[n][1..]];
    match cmd
    case StopPod(k) => StopAndRemove(c, k);
    case StartPod(k) =>
      if k.deployment in c.deployments && k in c.pods {
        c.pods := c.pods[k := Health.AfterSpawn(c.pods[k], r)];
      }
  }
}
