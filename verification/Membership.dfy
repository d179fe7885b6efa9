/** Nodes joining and leaving: registration (internal/node/node.go) and eviction (internal/controller/health.go). */
module Membership {
  import opened Collections
  import opened Schema
  import opened Store

  // ----- registration -----

  ghost function Registered(s: State, n: NodeId, total: Vec): State {
    s.(nodes := s.nodes[n := Capacity(total, Demand(s.pods, n))], registry := s.registry + {n})
  }

  // The allocation is re-derived from the pods, never read from the stored counter.
  method ReconcileAllocations(c: Redis, scan: seq<PodKey>, n: NodeId) returns (held: Vec)
    requires IsScan(scan, c.pods.Keys)
    ensures held.Is(Demand(c.pods, n))
  {
    hide DemandOf;
    var cpu, mem := 0, 0;
    DemandNone(c.pods, Elements(scan[..0]), n);
    for i := 0 to |scan|
      invariant Vec(cpu, mem).Is(DemandOf(c.pods, Elements(scan[..i]), n))
    {
      DemandOfPrefix(c.pods, scan, i, n);
      assert scan[i] in Elements(scan);
      var pod := c.pods[scan[i]];
      if pod.nodeId != n { continue; }
      if !ConsumesCapacity(pod.status) { continue; }
      cpu, mem := cpu + pod.request.cpu, mem + pod.request.mem;
    }
    assert scan[..|scan|] == scan;
    held := Vec(cpu, mem);
  }

  lemma DemandOfPrefix(pods: map<PodKey, Pod>, scan: seq<PodKey>, i: nat, n: NodeId)
    requires IsScan(scan, pods.Keys) && i < |scan|
    ensures DemandOf(pods, Elements(scan[..i + 1]), n).cpu
         == LoadAt(pods, scan[i], n).cpu + DemandOf(pods, Elements(scan[..i]), n).cpu
    ensures DemandOf(pods, Elements(scan[..i + 1]), n).mem
         == LoadAt(pods, scan[i], n).mem + DemandOf(pods, Elements(scan[..i]), n).mem
  {
    ScanPrefix(scan, pods.Keys, i);
    DemandSplit(pods, Elements(scan[..i + 1]), scan[i], n);
    assert Elements(scan[..i + 1]) - {scan[i]} == Elements(scan[..i]);
  }

  method Register(c: Redis, scan: seq<PodKey>, n: NodeId, total: Vec)
    requires IsScan(scan, c.pods.Keys)
    modifies c`nodes, c`registry
    ensures c.View() == Registered(old(c.View()), n, total)
  {
    var held := ReconcileAllocations(c, scan, n);
    c.nodes := c.nodes[n := Capacity(total, held)];
    c.registry := c.registry + {n};
  }

  // ----- eviction -----

  function EvictPod(p: Pod, dead: set<NodeId>): Pod {
    if p.nodeId in dead then p.(status := Evicted) else p
  }

  function EvictPods(pods: map<PodKey, Pod>, dead: set<NodeId>): map<PodKey, Pod> {
    map k | k in pods :: EvictPod(pods[k], dead)
  }

  // Every pod of the dead nodes marked, their allocations zeroed, the nodes out of the registry.
  function EvictNodes(s: State, dead: set<NodeId>): State {
    s.(pods := EvictPods(s.pods, dead),
       nodes := map n | n in s.nodes :: if n in dead then s.nodes[n].(alloc := ZERO) else s.nodes[n],
       registry := s.registry - dead)
  }

  function OnNode(pods: map<PodKey, Pod>, n: NodeId): set<PodKey> {
    set k | k in pods && pods[k].nodeId == n && pods[k].status != Evicted
  }

  // The script part way through its scan.
  function EvictSome(pods: map<PodKey, Pod>, keys: set<PodKey>, n: NodeId): map<PodKey, Pod> {
    map k | k in pods :: if k in keys then EvictPod(pods[k], {n}) else pods[k]
  }

  lemma EvictOneMore(pods: map<PodKey, Pod>, keys: set<PodKey>, k: PodKey, n: NodeId)
    requires k in pods && k !in keys
    ensures k in EvictSome(pods, keys, n) && EvictSome(pods, keys, n)[k] == pods[k]
    ensures EvictSome(pods, keys + {k}, n)
         == if k in OnNode(pods, n) then EvictSome(pods, keys, n)[k := pods[k].(status := Evicted)]
            else EvictSome(pods, keys, n)
    ensures |OnNode(pods, n) * (keys + {k})|
         == |OnNode(pods, n) * keys| + if k in OnNode(pods, n) then 1 else 0
  {
    if k in OnNode(pods, n) {
      assert OnNode(pods, n) * (keys + {k}) == OnNode(pods, n) * keys + {k};
    } else {
      assert OnNode(pods, n) * (keys + {k}) == OnNode(pods, n) * keys;
    }
  }

  method MarkEvicted(c: Redis, scan: seq<PodKey>, n: NodeId) returns (count: nat)
    requires IsScan(scan, c.pods.Keys)
    modifies c`pods
    ensures c.pods == EvictPods(old(c.pods), {n})
    ensures count == |OnNode(old(c.pods), n)|
  {
    hide EvictSome, EvictPods;
    ghost var pods := c.pods;
    EvictSomeEnds(pods, n);
    count := 0;
    assert Elements(scan[..0]) == {} && OnNode(pods, n) * {} == {};
    for i := 0 to |scan|
      invariant c.pods == EvictSome(pods, Elements(scan[..i]), n)
      invariant count == |OnNode(pods, n) * Elements(scan[..i])|
    {
      var k := scan[i];
      assert k in Elements(scan);
      ScanPrefix(scan, pods.Keys, i);
      EvictOneMore(pods, Elements(scan[..i]), k, n);
      if c.pods[k].nodeId == n {
        if c.pods[k].status != Evicted {
          c.pods := c.pods[k := c.pods[k].(status := Evicted)];
          count := count + 1;
        }
      }
    }
    assert scan[..|scan|] == scan && OnNode(pods, n) * pods.Keys == OnNode(pods, n);
  }

  lemma EvictSomeEnds(pods: map<PodKey, Pod>, n: NodeId)
    ensures EvictSome(pods, {}, n) == pods
    ensures EvictSome(pods, pods.Keys, n) == EvictPods(pods, {n})
  {
  }

  method EvictScript(c: Redis, scan: seq<PodKey>, n: NodeId) returns (count: nat)
    requires IsScan(scan, c.pods.Keys)
    modifies c`pods, c`nodes, c`registry
    ensures c.View() == EvictNodes(old(c.View()), {n})
    ensures count == |OnNode(old(c.pods), n)|
  {
    ghost var s := c.View();
    count := MarkEvicted(c, scan, n);
    if n in c.nodes {
      c.nodes := c.nodes[n := c.nodes[n].(alloc := ZERO)];
    }
    c.registry := c.registry - {n};
    assert c.nodes == EvictNodes(s, {n}).nodes;
  }

  lemma EvictionsCompose(s: State, a: set<NodeId>, b: set<NodeId>)
    ensures EvictNodes(EvictNodes(s, a), b) == EvictNodes(s, a + b)
  {
    var one, both := EvictNodes(EvictNodes(s, a), b), EvictNodes(s, a + b);
    assert one.pods == both.pods;
    assert one.nodes == both.nodes;
    assert one.registry == both.registry;
  }

  // A node whose lease came back between detection and the second look is left alone.
  method EvictNode(c: Redis, scan: seq<PodKey>, n: NodeId)
    requires IsScan(scan, c.pods.Keys)
    modifies c`pods, c`nodes, c`registry
    ensures c.View() == if n == "" || n in c.leases then old(c.View()) else EvictNodes(old(c.View()), {n})
  {
    if n == "" {
      return;
    }
    if n in c.leases {
      return;
    }
    var _ := EvictScript(c, scan, n);
  }

  function Dead(s: State): set<NodeId> { s.registry - s.leases - {""} }

  function Swept(s: State): State { EvictNodes(s, Dead(s)) }

  // A registered node that holds a lease is spared: membership, capacity and pods stay as they were. One without is
  // evicted: out of the registry, nothing allocated, every pod on it Evicted. Nothing else moves.
  lemma SweepMeaning(s: State, n: NodeId)
    ensures n in s.registry && (n in s.leases || n == "") ==> n in Swept(s).registry
    ensures n !in s.registry || n in s.leases ==>
              && (n in s.nodes ==> n in Swept(s).nodes && Swept(s).nodes[n] == s.nodes[n])
              && (forall k :: k in s.pods && s.pods[k].nodeId == n ==> k in Swept(s).pods && Swept(s).pods[k] == s.pods[k])
    ensures n in s.registry && n !in s.leases && n != "" ==>
              && n !in Swept(s).registry && (n in s.nodes ==> Swept(s).nodes[n] == s.nodes[n].(alloc := ZERO))
              && (forall k :: k in s.pods && s.pods[k].nodeId == n ==>
                    k in Swept(s).pods && Swept(s).pods[k] == s.pods[k].(status := Evicted))
    ensures Swept(s).registry <= s.registry && Swept(s).leases == s.leases && Swept(s).queues == s.queues
    ensures Swept(s).nodes.Keys == s.nodes.Keys && Swept(s).pods.Keys == s.pods.Keys
  {
  }

  // The sweep reaches the same state in whatever order the registry is read.
  method SweepOnce(c: Redis, order: seq<NodeId>, scan: seq<PodKey>)
    requires IsScan(order, c.registry) && IsScan(scan, c.pods.Keys)
    modifies c`pods, c`nodes, c`registry
    ensures c.View() == Swept(old(c.View()))
  {
    ghost var s := c.View();
    EvictNoneIsIdentity(s);
    assert Dead(s) * Elements(order[..0]) == {};
    for i := 0 to |order|
      invariant c.View() == EvictNodes(s, Dead(s) * Elements(order[..i]))
    {
      ScanPrefix(order, s.registry, i);
      assert order[i] in Elements(order);
      assert c.pods.Keys == s.pods.Keys;
      EvictionsCompose(s, Dead(s) * Elements(order[..i]), {order[i]});
      assert order[i] in Dead(s) ==>
          Dead(s) * Elements(order[..i + 1]) == Dead(s) * Elements(order[..i]) + {order[i]};
      assert order[i] !in Dead(s) ==> Dead(s) * Elements(order[..i + 1]) == Dead(s) * Elements(order[..i]);
      if order[i] in c.leases { continue; }
      EvictNode(c, scan, order[i]);
    }
    assert order[..|order|] == order && Dead(s) * Elements(order) == Dead(s);
  }

  lemma EvictNoneIsIdentity(s: State)
    ensures EvictNodes(s, {}) == s
  {
    var none := EvictNodes(s, {});
    assert none.pods == s.pods && none.nodes == s.nodes && none.registry == s.registry;
  }
}
