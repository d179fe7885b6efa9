/** The exact ledger: over every run of whole operations a node's counters equal what its pods hold. */
module Ledger {
  import opened Collections
  import opened Schema
  import opened Store
  import opened CapacityScripts
  import opened Scheduler
  import opened Placement
  import opened Membership

  // ----- removal: release, then delete -----

  function Freed(nodes: map<NodeId, Capacity>, p: Pod): map<NodeId, Capacity> {
    if p.nodeId != "" && ConsumesCapacity(p.status) then Released(nodes, p.nodeId, p.request) else nodes
  }

  function Removed(s: State, k: PodKey): State {
    if k in s.pods then s.(nodes := Freed(s.nodes, s.pods[k]), pods := s.pods - {k}) else s
  }

  // The store side of the agent's StopAndRemove; the process side is in module Agent.
  method StopAndRemove(c: Redis, k: PodKey)
    modifies c`nodes, c`pods
    ensures c.View() == Removed(old(c.View()), k)
  {
    if k !in c.pods {
      return;
    }
    var pod := c.pods[k];
    if ConsumesCapacity(pod.status) && pod.nodeId != "" {
      Release(c, pod.nodeId, pod.request);
    }
    c.pods := c.pods - {k};
  }

  // ----- the invariant -----

  ghost predicate ExactAt(s: State, n: NodeId) {
    n in s.nodes ==> s.nodes[n].alloc.Is(Demand(s.pods, n))
  }

  ghost predicate LedgerExact(s: State) { forall n :: n in s.nodes ==> ExactAt(s, n) }

  // A pod still holding capacity is bound to a registered node with a published capacity.
  ghost predicate Bound(s: State) {
    forall k :: k in s.pods && ConsumesCapacity(s.pods[k].status) ==>
      s.pods[k].nodeId in s.nodes && s.pods[k].nodeId in s.registry
  }

  ghost predicate Sane(s: State) {
    && "" !in s.nodes
    && (forall k :: k in s.pods ==> UNIT.Leq(s.pods[k].request) && k == PodKey(s.pods[k].deployment, s.pods[k].podId))
  }

  ghost predicate Consistent(s: State) { LedgerExact(s) && Bound(s) && Sane(s) }

  // ----- what each operation keeps -----

  // The counter of a node moves by the load that appears or disappears under one key, and by nothing else.
  lemma OneKeyChange(s: State, s': State, k: PodKey, n: NodeId)
    requires ExactAt(s, n) && (n in s.nodes <==> n in s'.nodes)
    requires s.pods.Keys - {k} == s'.pods.Keys - {k}
    requires forall j :: j in s.pods && j in s'.pods && j != k ==> s'.pods[j] == s.pods[j]
    requires n in s.nodes ==>
               && s'.nodes[n].alloc.cpu == s.nodes[n].alloc.cpu - LoadAt(s.pods, k, n).cpu + LoadAt(s'.pods, k, n).cpu
               && s'.nodes[n].alloc.mem == s.nodes[n].alloc.mem - LoadAt(s.pods, k, n).mem + LoadAt(s'.pods, k, n).mem
    ensures ExactAt(s', n)
  {
    DemandChange(s.pods, s'.pods, k, n);
  }

  // On a removal the zero clamp of the release script never fires.
  lemma RemovalNeverClamps(s: State, k: PodKey)
    requires Consistent(s) && k in s.pods && ConsumesCapacity(s.pods[k].status)
    ensures var p := s.pods[k];
            p.nodeId in s.nodes && p.request.Leq(s.nodes[p.nodeId].alloc)
  {
    DemandBounds(s.pods, s.pods[k].nodeId);
  }

  lemma RemovalKeeps(s: State, k: PodKey)
    requires Consistent(s)
    ensures Consistent(Removed(s, k))
  {
    hide Demand;
    if k in s.pods {
      var s' := Removed(s, k);
      if ConsumesCapacity(s.pods[k].status) {
        RemovalNeverClamps(s, k);
      }
      forall n | n in s'.nodes
        ensures ExactAt(s', n)
      {
        OneKeyChange(s, s', k, n);
      }
    }
  }

  lemma PlacementKeeps(s: State, dep: Deployment, id: PodId, n: NodeId, now: string, dispatched: bool)
    requires Consistent(s) && n in Fitting(s, dep.request) && UNIT.Leq(dep.request)
    requires PodKey(dep.name, id) !in s.pods
    ensures Consistent(Bind(s.(nodes := Reserved(s.nodes, n, dep.request)), dep, id, n, now, dispatched))
  {
    hide Demand;
    var s' := Bind(s.(nodes := Reserved(s.nodes, n, dep.request)), dep, id, n, now, dispatched);
    forall m | m in s'.nodes
      ensures ExactAt(s', m)
    {
      OneKeyChange(s, s', PodKey(dep.name, id), m);
    }
  }

  lemma EvictionKeeps(s: State, dead: set<NodeId>)
    requires Consistent(s)
    ensures Consistent(EvictNodes(s, dead))
  {
    hide DemandOf;
    var s' := EvictNodes(s, dead);
    forall n | n in s'.nodes
      ensures ExactAt(s', n)
    {
      if n in dead {
        DemandNone(s'.pods, s'.pods.Keys, n);
      } else {
        assert ExactAt(s, n) && s'.pods.Keys == s.pods.Keys;
        DemandSame(s.pods, s'.pods, s.pods.Keys, n);
      }
    }
  }

  // What the agent may rewrite: anything but where the pod sits, what it asked for and whether it is evicted.
  predicate AgentMayWrite(before: Pod, after: Pod) {
    && after.deployment == before.deployment && after.podId == before.podId
    && after.nodeId == before.nodeId && after.request == before.request
    && (after.status == Evicted <==> before.status == Evicted)
  }

  lemma AgentWriteKeeps(s: State, k: PodKey, p: Pod)
    requires Consistent(s) && k in s.pods && AgentMayWrite(s.pods[k], p)
    ensures Consistent(s.(pods := s.pods[k := p]))
  {
    hide Demand;
    var s' := s.(pods := s.pods[k := p]);
    forall n | n in s'.nodes
      ensures ExactAt(s', n)
    {
      OneKeyChange(s, s', k, n);
    }
  }

  lemma DeleteEvictedKeeps(s: State, k: PodKey)
    requires Consistent(s) && k in s.pods && s.pods[k].status == Evicted
    ensures Consistent(s.(pods := s.pods - {k}))
  {
    RemovalKeeps(s, k);
  }

  lemma RegisterKeeps(s: State, n: NodeId, total: Vec)
    requires Consistent(s) && n != ""
    ensures Consistent(Registered(s, n, total))
  {
    hide Demand;
    var s' := Registered(s, n, total);
    forall m | m in s'.nodes
      ensures ExactAt(s', m)
    {
      assert m != n ==> ExactAt(s, m);
    }
  }

  // ----- runs -----

  datatype Step =
    | Schedule(dep: Deployment, id: PodId, now: string, fault: Fault)
    | Remove(key: PodKey)                       // stop-and-remove by the agent, or force-remove by the controller
    | DropEvicted(key: PodKey)                  // an Evicted record cleaned up by the replica controller
    | Evict(node: NodeId)
    | Register(node: NodeId, total: Vec)
    | AgentWrite(key: PodKey, pod: Pod)         // probe, restart, or start of a pod that is not Evicted
    | Churn(leases: set<NodeId>, queues: map<NodeId, seq<Command>>, deployments: map<string, Deployment>)

  ghost predicate Enabled(s: State, step: Step) {
    match step
    case Schedule(dep, id, _, _) => UNIT.Leq(dep.request) && PodKey(dep.name, id) !in s.pods
    case Remove(_) => true
    case DropEvicted(k) => k in s.pods && s.pods[k].status == Evicted
    case Evict(_) => true
    case Register(n, _) => n != ""
    case AgentWrite(k, p) => k in s.pods && AgentMayWrite(s.pods[k], p)
    case Churn(_, _, _) => true
  }

  ghost function Next(s: State, step: Step): State {
    match step
    case Schedule(dep, id, now, fault) => ScheduleOneSpec(s, [], dep, id, now, fault).0
    case Remove(k) => Removed(s, k)
    case DropEvicted(k) => s.(pods := s.pods - {k})
    case Evict(n) => EvictNodes(s, {n})
    case Register(n, total) => Registered(s, n, total)
    case AgentWrite(k, p) => s.(pods := s.pods[k := p])
    case Churn(leases, queues, deployments) => s.(leases := leases, queues := queues, deployments := deployments)
  }

  ghost predicate IsRun(s: State, steps: seq<Step>)
    decreases |steps|
  {
    steps == [] || (Enabled(s, steps[0]) && IsRun(Next(s, steps[0]), steps[1..]))
  }

  ghost function After(s: State, steps: seq<Step>): State
    decreases |steps|
  {
    if steps == [] then s else After(Next(s, steps[0]), steps[1..])
  }

  lemma ScheduleKeeps(s: State, dep: Deployment, id: PodId, now: string, fault: Fault)
    requires Consistent(s) && UNIT.Leq(dep.request) && PodKey(dep.name, id) !in s.pods
    ensures Consistent(ScheduleOneSpec(s, [], dep, id, now, fault).0)
  {
    hide ScheduleOneSpec, Best, Consistent;
    PlaceOne(s, dep, id, now, fault);
    if CanPlace(s, dep.request) {
      BestIsTightest(s, dep.request);
      var n := Best(s, dep.request);
      if fault.PodIdFails? || fault.PodWriteFails? {
        CountersNonNegative(s, n);
        RollbackRestores(s.nodes, n, dep.request);
      } else {
        PlacementKeeps(s, dep, id, n, now, !fault.DispatchFails?);
      }
    }
  }

  lemma CountersNonNegative(s: State, n: NodeId)
    requires Consistent(s) && n in s.nodes
    ensures ZERO.Leq(s.nodes[n].alloc)
  {
    DemandBounds(s.pods, n);
  }

  lemma StepKeeps(s: State, step: Step)
    requires Consistent(s) && Enabled(s, step)
    ensures Consistent(Next(s, step))
  {
    hide Consistent, ScheduleOneSpec, EvictNodes, Registered, Removed;
    match step
    case Schedule(dep, id, now, fault) => ScheduleKeeps(s, dep, id, now, fault);
    case Remove(k) => RemovalKeeps(s, k);
    case DropEvicted(k) => DeleteEvictedKeeps(s, k);
    case Evict(n) => EvictionKeeps(s, {n});
    case Register(n, total) => RegisterKeeps(s, n, total);
    case AgentWrite(k, p) => AgentWriteKeeps(s, k, p);
    case Churn(leases, queues, deployments) => ChurnKeeps(s, leases, queues, deployments);
  }

  lemma ChurnKeeps(s: State, leases: set<NodeId>, queues: map<NodeId, seq<Command>>, deps: map<string, Deployment>)
    requires Consistent(s)
    ensures Consistent(s.(leases := leases, queues := queues, deployments := deps))
  {
    var s' := s.(leases := leases, queues := queues, deployments := deps);
    assert forall n :: n in s.nodes ==> ExactAt(s, n) && ExactAt(s', n);
  }

  // Every run of whole operations ends with every counter equal to the requests of the node's pods.
  lemma {:induction false} ExactLedgerOverRuns(s: State, steps: seq<Step>)
    requires Consistent(s) && IsRun(s, steps)
    ensures Consistent(After(s, steps))
    decreases |steps|
  {
    hide Consistent, Next;
    if steps != [] {
      StepKeeps(s, steps[0]);
      ExactLedgerOverRuns(Next(s, steps[0]), steps[1..]);
    }
  }

  // ----- drift, and what repairs it -----

  // The hypothesis on AgentWrite is needed: a leftover start command can set an Evicted pod Running, or Failed, without
  // any reservation behind it. The ledger survives a start exactly when the pod was not Evicted.
  lemma StartKeepsLedgerIff(s: State, k: PodKey, started: Pod)
    requires Consistent(s) && k in s.pods && s.pods[k].nodeId in s.nodes
    requires ConsumesCapacity(started.status)
    requires started.nodeId == s.pods[k].nodeId && started.request == s.pods[k].request
    ensures LedgerExact(s.(pods := s.pods[k := started])) <==> s.pods[k].status != Evicted
  {
    hide Demand;
    var s' := s.(pods := s.pods[k := started]);
    var n := s.pods[k].nodeId;
    forall m | m in s.nodes
      ensures ExactAt(s', m) <==> (m != n || s.pods[k].status != Evicted)
    {
      assert ExactAt(s, m);
      DemandChange(s.pods, s'.pods, k, m);
    }
    assert ExactAt(s', n) <==> s.pods[k].status != Evicted;
  }

  // A crash after the release and before the delete leaves the counter below what the pods hold, by exactly the
  // pod's request, and nowhere else; registering the node again repairs it.
  lemma CrashMidRemovalUndercounts(s: State, k: PodKey, total: Vec)
    requires Consistent(s) && k in s.pods && ConsumesCapacity(s.pods[k].status)
    ensures var n := s.pods[k].nodeId;
            var torn := s.(nodes := Freed(s.nodes, s.pods[k]));
            && n in torn.nodes && torn.nodes[n].alloc.Plus(s.pods[k].request).Is(Demand(s.pods, n))
            && (forall m :: m in torn.nodes && m != n ==> ExactAt(torn, m))
            && Consistent(Registered(torn, n, total))
  {
    hide Demand;
    RemovalNeverClamps(s, k);
    var n := s.pods[k].nodeId;
    var torn := s.(nodes := Freed(s.nodes, s.pods[k]));
    assert ExactAt(s, n);
    forall m | m in torn.nodes && m != n
      ensures ExactAt(torn, m) && ExactAt(Registered(torn, n, total), m)
    {
      assert ExactAt(s, m);
    }
    assert ExactAt(Registered(torn, n, total), n);
  }

  ghost function RegisterAll(s: State, joining: seq<(NodeId, Vec)>): State
    decreases |joining|
  {
    if joining == [] then s else RegisterAll(Registered(s, joining[0].0, joining[0].1), joining[1..])
  }

  // The size a node published last, if it registered at all.
  function LastTotal(joining: seq<(NodeId, Vec)>, n: NodeId): Option<Vec>
    decreases |joining|
  {
    if joining == [] then None
    else
      var later := LastTotal(joining[1..], n);
      if later.Some? then later else if joining[0].0 == n then Some(joining[0].1) else None
  }

  // After any number of registrations each node has that size and is a member; a node that did not register keeps its
  // capacity hash as it was.
  lemma {:induction false} LastTotalCounts(s: State, joining: seq<(NodeId, Vec)>, n: NodeId)
    ensures var s', last := RegisterAll(s, joining), LastTotal(joining, n);
            && (last.Some? ==> n in s'.nodes && s'.nodes[n].total == last.value && n in s'.registry)
            && (last.None? ==> (n in s'.nodes <==> n in s.nodes) && (n in s.nodes ==> s'.nodes[n] == s.nodes[n]))
            && s.registry <= s'.registry
    decreases |joining|
  {
    hide Demand;
    if joining != [] {
      LastTotalCounts(Registered(s, joining[0].0, joining[0].1), joining[1..], n);
    }
  }

  // However the counters drifted, registering every node that is off makes the whole ledger exact again.
  lemma {:induction false} RegisterRepairs(s: State, joining: seq<(NodeId, Vec)>)
    requires forall n :: n in s.nodes && !ExactAt(s, n) ==> exists i :: 0 <= i < |joining| && joining[i].0 == n
    ensures LedgerExact(RegisterAll(s, joining))
    decreases |joining|
  {
    hide Demand;
    if joining != [] {
      var s' := Registered(s, joining[0].0, joining[0].1);
      forall n | n in s'.nodes && !ExactAt(s', n)
        ensures exists i :: 0 <= i < |joining[1..]| && joining[1..][i].0 == n
      {
        assert n in s.nodes && !ExactAt(s, n);
        var i :| 0 <= i < |joining| && joining[i].0 == n;
        assert joining[1..][i - 1].0 == n;
      }
      RegisterRepairs(s', joining[1..]);
    }
  }
}
