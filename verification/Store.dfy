/** The shared store: its content as a value, the object every component mutates, and the demand its pods place on nodes. */
module Store {
  import opened Collections
  import opened Schema

  datatype State = State(
    pods: map<PodKey, Pod>, nodes: map<NodeId, Capacity>, registry: set<NodeId>, leases: set<NodeId>,
    queues: map<NodeId, seq<Command>>, deployments: map<string, Deployment>)

  class Redis {
    var pods: map<PodKey, Pod>
    var nodes: map<NodeId, Capacity>
    var registry: set<NodeId>
    var leases: set<NodeId>
    var queues: map<NodeId, seq<Command>>
    var deployments: map<string, Deployment>

    ghost function View(): State
      reads this
    {
      State(pods, nodes, registry, leases, queues, deployments)
    }

    constructor ()
      ensures View() == State(map[], map[], {}, {}, map[], map[])
    {
      pods, nodes, registry, leases, queues, deployments := map[], map[], {}, {}, map[], map[];
    }

    // RPUSH on a node's command list.
    method Push(n: NodeId, cmd: Command)
      modifies this`queues
      ensures View() == Enqueue(old(View()), n, cmd)
    {
      queues := queues[n := (if n in queues then queues[n] else []) + [cmd]];
    }
  }

  function Queue(s: State, n: NodeId): seq<Command> { if n in s.queues then s.queues[n] else [] }

  function Enqueue(s: State, n: NodeId, cmd: Command): State {
    s.(queues := s.queues[n := Queue(s, n) + [cmd]])
  }

  // ----- what the pods of a node hold -----

  function Load(p: Pod, n: NodeId): Vec {
    if p.nodeId == n && ConsumesCapacity(p.status) then p.request else ZERO
  }

  function LoadAt(pods: map<PodKey, Pod>, k: PodKey, n: NodeId): Vec {
    if k in pods then Load(pods[k], n) else ZERO
  }

  // The requests of the pods bound to a node, summed over any set of keys.
  ghost function DemandOf(pods: map<PodKey, Pod>, keys: set<PodKey>, n: NodeId): Vec {
    Vec(Sum(keys, k => LoadAt(pods, k, n).cpu), Sum(keys, k => LoadAt(pods, k, n).mem))
  }

  ghost function Demand(pods: map<PodKey, Pod>, n: NodeId): Vec { DemandOf(pods, pods.Keys, n) }

  lemma DemandSplit(pods: map<PodKey, Pod>, keys: set<PodKey>, k: PodKey, n: NodeId)
    requires k in keys
    ensures DemandOf(pods, keys, n).Is(LoadAt(pods, k, n).Plus(DemandOf(pods, keys - {k}, n)))
  {
    SumSplit(keys, k, j => LoadAt(pods, j, n).cpu);
    SumSplit(keys, k, j => LoadAt(pods, j, n).mem);
  }

  lemma DemandSame(pods: map<PodKey, Pod>, other: map<PodKey, Pod>, keys: set<PodKey>, n: NodeId)
    requires forall k :: k in keys ==> LoadAt(pods, k, n) == LoadAt(other, k, n)
    ensures DemandOf(pods, keys, n).Is(DemandOf(other, keys, n))
  {
    SumSame(keys, k => LoadAt(pods, k, n).cpu, k => LoadAt(other, k, n).cpu);
    SumSame(keys, k => LoadAt(pods, k, n).mem, k => LoadAt(other, k, n).mem);
  }

  // Demand splits along any part of the keys.
  lemma {:induction false} DemandPart(pods: map<PodKey, Pod>, keys: set<PodKey>, part: set<PodKey>, n: NodeId)
    requires part <= keys
    ensures DemandOf(pods, keys, n).Is(DemandOf(pods, part, n).Plus(DemandOf(pods, keys - part, n)))
    decreases |part|
  {
    hide DemandOf;
    if part == {} {
      assert keys - part == keys;
      DemandNone(pods, {}, n);
    } else {
      var k :| k in part;
      DemandSplit(pods, keys, k, n);
      DemandSplit(pods, part, k, n);
      DemandPart(pods, keys - {k}, part - {k}, n);
      assert keys - {k} - (part - {k}) == keys - part;
    }
  }

  // Taking a key out of the demand of all pods, whether or not a pod is stored under it.
  lemma DemandWithout(pods: map<PodKey, Pod>, k: PodKey, n: NodeId)
    ensures Demand(pods, n).Is(LoadAt(pods, k, n).Plus(DemandOf(pods, pods.Keys - {k}, n)))
  {
    if k in pods {
      DemandSplit(pods, pods.Keys, k, n);
    } else {
      assert pods.Keys - {k} == pods.Keys;
    }
  }

  // Two pod maps that differ at one key differ in demand by that key's load.
  lemma DemandChange(pods: map<PodKey, Pod>, other: map<PodKey, Pod>, k: PodKey, n: NodeId)
    requires pods.Keys - {k} == other.Keys - {k}
    requires forall j :: j in pods && j in other && j != k ==> LoadAt(other, j, n) == LoadAt(pods, j, n)
    ensures Demand(other, n).cpu == Demand(pods, n).cpu - LoadAt(pods, k, n).cpu + LoadAt(other, k, n).cpu
    ensures Demand(other, n).mem == Demand(pods, n).mem - LoadAt(pods, k, n).mem + LoadAt(other, k, n).mem
  {
    DemandWithout(pods, k, n);
    DemandWithout(other, k, n);
    DemandSame(pods, other, pods.Keys - {k}, n);
  }

  lemma DemandBounds(pods: map<PodKey, Pod>, n: NodeId)
    requires forall k :: k in pods ==> ZERO.Leq(pods[k].request)
    ensures ZERO.Leq(Demand(pods, n))
    ensures forall k :: k in pods ==> Load(pods[k], n).Leq(Demand(pods, n))
  {
    var cpu := (k: PodKey) => LoadAt(pods, k, n).cpu;
    var mem := (k: PodKey) => LoadAt(pods, k, n).mem;
    SumNonNegative(pods.Keys, cpu);
    SumNonNegative(pods.Keys, mem);
    forall k | k in pods
      ensures Load(pods[k], n).Leq(Demand(pods, n))
    {
      assert cpu(k) == Load(pods[k], n).cpu && mem(k) == Load(pods[k], n).mem;
    }
  }

  lemma {:induction false} DemandNone(pods: map<PodKey, Pod>, keys: set<PodKey>, n: NodeId)
    requires forall k :: k in keys ==> LoadAt(pods, k, n) == ZERO
    ensures DemandOf(pods, keys, n).Is(ZERO)
    decreases |keys|
  {
    if keys != {} {
      var k :| k in keys;
      DemandSplit(pods, keys, k, n);
      DemandNone(pods, keys - {k}, n);
    }
  }
}
