/** Keeping a deployment's pod count at its desired value (internal/controller/replica.go). */
module Replica {
  import opened Collections
  import opened Schema
  import opened Store
  import opened CapacityScripts
  import opened Scheduler
  import opened Placement
  import opened Ledger

  function KeyOf(p: Pod): PodKey { PodKey(p.deployment, p.podId) }

  function PodsOf(s: State, name: string): set<PodKey> { set k | k in s.pods && k.deployment == name }

  function LiveOf(s: State, name: string): set<PodKey> { set k | k in PodsOf(s, name) && s.pods[k].status != Evicted }

  function EvictedOf(s: State, name: string): set<PodKey> { set k | k in PodsOf(s, name) && s.pods[k].status == Evicted }

  // ----- victim choice -----

  // Lower goes first.
  function StatusPriority(status: Status): nat {
    match status
    case Unschedulable => 0
    case Failed => 1
    case CrashLoopBackOff => 2
    case Pending => 3
    case _ => 4
  }

  // Least useful first, then newest, then the larger pod id.
  predicate VictimLess(p: Pod, q: Pod) {
    if StatusPriority(p.status) != StatusPriority(q.status) then StatusPriority(p.status) < StatusPriority(q.status)
    else if p.createdAt != q.createdAt then StringLess(q.createdAt, p.createdAt)
    else StringLess(q.podId, p.podId)
  }

  predicate VictimLeq(p: Pod, q: Pod) { !VictimLess(q, p) }

  function SelectVictims(pods: seq<Pod>, count: nat): (r: seq<Pod>)
    ensures |r| == Min(count, |pods|)
  {
    SortByPermutes(pods, VictimLeq);
    SortBy(pods, VictimLeq)[..Min(count, |pods|)]
  }

  lemma VictimTransitive(p: Pod, q: Pod, r: Pod)
    requires VictimLeq(p, q) && VictimLeq(q, r)
    ensures VictimLeq(p, r)
  {
    hide StringLess;
    StringTrichotomy(p.createdAt, q.createdAt);
    StringTrichotomy(q.createdAt, r.createdAt);
    if StatusPriority(p.status) == StatusPriority(r.status) {
      StringLeqTransitive(r.createdAt, q.createdAt, p.createdAt);
      if p.createdAt == r.createdAt {
        StringLeqTransitive(r.podId, q.podId, p.podId);
      }
    }
  }

  // Pods told apart by their ids are totally ordered, so the choice does not depend on scan order.
  lemma VictimsTotallyOrdered(pods: set<Pod>)
    requires forall p, q :: p in pods && q in pods && p.podId == q.podId ==> p == q
    ensures TotalOrderOn(VictimLeq, pods)
  {
    hide StringLess;
    forall p: Pod, q: Pod
      ensures VictimLeq(p, q) || VictimLeq(q, p)
      ensures VictimLeq(p, q) && VictimLeq(q, p) ==> p.podId == q.podId
    {
      StringTrichotomy(p.createdAt, q.createdAt);
      StringTrichotomy(p.podId, q.podId);
    }
    forall p: Pod, q: Pod, r: Pod | VictimLeq(p, q) && VictimLeq(q, r)
      ensures VictimLeq(p, r)
    {
      VictimTransitive(p, q, r);
    }
  }

  // ----- removal -----

  function ForceRemoved(s: State, p: Pod): State {
    s.(nodes := Freed(s.nodes, p), pods := s.pods - {KeyOf(p)})
  }

  // A pod on a live node is stopped through its queue; on a dead node its record and reservation go at once.
  function RemoveOne(s: State, alive: set<NodeId>, name: string, p: Pod): State {
    if p.nodeId in alive then Enqueue(s, p.nodeId, StopPod(PodKey(name, p.podId))) else ForceRemoved(s, p)
  }

  function RemoveAll(s: State, alive: set<NodeId>, name: string, victims: seq<Pod>): State
    decreases |victims|
  {
    if victims == [] then s else RemoveAll(RemoveOne(s, alive, name, victims[0]), alive, name, victims[1..])
  }

  // ----- reading a deployment's pods -----

  function Read(pods: map<PodKey, Pod>, scan: seq<PodKey>): (r: seq<Pod>)
    requires forall k :: k in scan ==> k in pods
    ensures |r| == |scan| && forall i :: 0 <= i < |scan| ==> r[i] == pods[scan[i]]
  {
    seq(|scan|, i requires 0 <= i < |scan| => assert scan[i] in scan; pods[scan[i]])
  }

  function KeepLive(pods: seq<Pod>): seq<Pod> {
    if pods == [] then []
    else
      var rest := KeepLive(pods[..|pods| - 1]);
      if pods[|pods| - 1].status == Evicted then rest else rest + [pods[|pods| - 1]]
  }

  ghost predicate ScansPods(s: State, name: string, scan: seq<PodKey>) { IsScan(scan, PodsOf(s, name)) }

  // ----- the delta engine -----

  ghost function Reconciled(s: State, name: string, scan: seq<PodKey>, ids: seq<PodId>, now: string): State
    requires ScansPods(s, name, scan)
    requires name in s.deployments ==> |ids| >= s.deployments[name].desired - |KeepLive(ReadAll(s, name, scan))|
  {
    var pods := ReadAll(s, name, scan);
    if name == "" then s
    else if name !in s.deployments then RemoveAll(s, Live(s), name, pods)
    else
      var dep := s.deployments[name];
      var live := KeepLive(pods);
      var s1 := s.(pods := s.pods - EvictedOf(s, name));
      if |live| < dep.desired then ScheduleMany(s1, dep, dep.desired - |live|, ids, now).0
      else if |live| > dep.desired then RemoveAll(s1, Live(s1), name, SelectVictims(live, |live| - dep.desired))
      else s1
  }

  ghost function ReadAll(s: State, name: string, scan: seq<PodKey>): seq<Pod>
    requires ScansPods(s, name, scan)
  {
    assert forall k :: k in scan ==> k in Elements(scan);
    Read(s.pods, scan)
  }

  /** The outcome of reconciling one deployment. */
  datatype Delta = Delta(desired: int, observed: int, created: int, removed: int)

  ghost function DeltaOf(s: State, name: string, scan: seq<PodKey>, ids: seq<PodId>, now: string): Delta
    requires ScansPods(s, name, scan)
    requires name in s.deployments ==> |ids| >= s.deployments[name].desired - |KeepLive(ReadAll(s, name, scan))|
  {
    if name == "" then Delta(0, 0, 0, 0)
    else if name !in s.deployments then Delta(0, 0, 0, |scan|)
    else
      var dep, live := s.deployments[name], |KeepLive(ReadAll(s, name, scan))|;
      var s1 := s.(pods := s.pods - EvictedOf(s, name));
      if live < dep.desired then Delta(dep.desired, live, |ScheduleMany(s1, dep, dep.desired - live, ids, now).1|, 0)
      else Delta(dep.desired, live, 0, Min(live - dep.desired, live))
  }

  method RemovePods(c: Redis, order: seq<NodeId>, name: string, victims: seq<Pod>) returns (removed: nat)
    requires IsScan(order, c.registry)
    modifies c`pods, c`nodes, c`queues
    ensures c.View() == RemoveAll(old(c.View()), Live(old(c.View())), name, victims)
    ensures removed == |victims|
  {
    removed := 0;
    if |victims| == 0 {
      return;
    }
    ghost var s := c.View();
    var live := LiveNodes(c, order);
    assert victims[0..] == victims;
    for i := 0 to |victims|
      invariant c.View() == c.View().(registry := s.registry, leases := s.leases)
      invariant removed == i
      invariant RemoveAll(s, Live(s), name, victims) == RemoveAll(c.View(), Live(s), name, victims[i..])
    {
      var pod := victims[i];
      assert victims[i..][1..] == victims[i + 1..];
      assert pod.nodeId in live <==> pod.nodeId in Elements(live);
      if pod.nodeId in live {
        c.Push(pod.nodeId, StopPod(PodKey(name, pod.podId)));
        removed := removed + 1;
        continue;
      }
      ForceRemove(c, pod);
      removed := removed + 1;
    }
  }

  method ForceRemove(c: Redis, pod: Pod)
    modifies c`pods, c`nodes
    ensures c.View() == ForceRemoved(old(c.View()), pod)
  {
    if pod.nodeId != "" && ConsumesCapacity(pod.status) {
      Release(c, pod.nodeId, pod.request);
    }
    c.pods := c.pods - {KeyOf(pod)};
  }

  // Splits the pods read into the live ones and the keys of the Evicted ones.
  method SplitLive(pods: seq<Pod>, name: string) returns (live: seq<Pod>, evicted: set<PodKey>)
    ensures live == KeepLive(pods)
    ensures evicted == set p | p in pods && p.status == Evicted :: PodKey(name, p.podId)
  {
    live, evicted := [], {};
    for i := 0 to |pods|
      invariant live == KeepLive(pods[..i])
      invariant evicted == set p | p in pods[..i] && p.status == Evicted :: PodKey(name, p.podId)
    {
      assert pods[..i + 1][..i] == pods[..i] && pods[..i + 1] == pods[..i] + [pods[i]];
      if pods[i].status == Evicted {
        evicted := evicted + {PodKey(name, pods[i].podId)};
        continue;
      }
      live := live + [pods[i]];
    }
    assert pods[..|pods|] == pods;
  }

  ghost predicate Keyed(s: State) { forall k :: k in s.pods ==> k == KeyOf(s.pods[k]) }

  method ReconcileDeployment(c: Redis, order: seq<NodeId>, name: string, scan: seq<PodKey>, ids: seq<PodId>, now: string)
    returns (delta: Delta)
    requires IsScan(order, c.registry) && ScansPods(c.View(), name, scan) && Keyed(c.View())
    requires name in c.deployments ==>
               |ids| >= c.deployments[name].desired - |KeepLive(ReadAll(c.View(), name, scan))|
    modifies c`pods, c`nodes, c`queues
    ensures c.View() == Reconciled(old(c.View()), name, scan, ids, now)
    ensures delta == DeltaOf(old(c.View()), name, scan, ids, now)
  {
    hide SelectVictims, ScheduleMany, RemoveAll, KeepLive;
    delta := Delta(0, 0, 0, 0);
    if name == "" {
      return;
    }
    ghost var s := c.View();
    assert forall k :: k in scan ==> k in Elements(scan);
    var pods := Read(c.pods, scan);
    if name !in c.deployments {
      var removed := RemovePods(c, order, name, pods);
      return Delta(0, 0, 0, removed);
    }
    var dep := c.deployments[name];
    var live, evicted := SplitLive(pods, name);
    EvictedKeys(s, name, scan, pods, evicted);
    delta := Delta(dep.desired, |live|, 0, 0);
    c.pods := c.pods - evicted;
    if |live| < dep.desired {
      var created := ScheduleReplicas(c, order, dep, dep.desired - |live|, ids, now);
      delta := delta.(created := |created|);
    } else if |live| > dep.desired {
      var removed := RemovePods(c, order, name, SelectVictims(live, |live| - dep.desired));
      delta := delta.(removed := removed);
    }
  }

  lemma EvictedKeys(s: State, name: string, scan: seq<PodKey>, pods: seq<Pod>, evicted: set<PodKey>)
    requires ScansPods(s, name, scan) && Keyed(s) && pods == ReadAll(s, name, scan)
    requires evicted == set p | p in pods && p.status == Evicted :: PodKey(name, p.podId)
    ensures evicted == EvictedOf(s, name)
  {
    forall k | k in EvictedOf(s, name)
      ensures k in evicted
    {
      assert k in scan;
      var i :| 0 <= i < |scan| && scan[i] == k;
      assert pods[i] in pods && PodKey(name, pods[i].podId) == k;
    }
    forall k | k in evicted
      ensures k in EvictedOf(s, name)
    {
      var p :| p in pods && p.status == Evicted && k == PodKey(name, p.podId);
      var i :| 0 <= i < |pods| && pods[i] == p;
      assert scan[i] in Elements(scan);
    }
  }
}
