/** The supervisor's operations as it runs them, each proved to do what module Agent specifies. */
module Supervisor {
  import opened Collections
  import opened Schema
  import opened Ports
  import opened Agent
  import Health

  class Supervisor {
    const node: NodeId
    const self: int
    var deployments: map<string, Deployment>
    var pods: map<PodKey, Pod>
    var procs: map<int, Proc>
    ghost var used: set<(int, nat)>

    ghost function View(): Host
      reads this
    {
      Host(node, self, deployments, pods, procs, used)
    }

    constructor (node: NodeId, self: int)
      ensures View() == Host(node, self, map[], map[], map[], {}) && Inv(View())
    {
      this.node, this.self := node, self;
      deployments, pods, procs, used := map[], map[], map[], {};
    }

    method Spawn(k: PodKey, scan: seq<PodKey>, launch: Launch, busy: set<int>) returns (ok: bool)
      requires IsScan(scan, pods.Keys)
      modifies this`pods, this`procs, this`used
      ensures View() == Spawned(old(View()), k, launch, busy)
      ensures ok == SpawnOk(old(View()), k, launch, busy)
    {
      if k.deployment !in deployments {
        return false;
      }
      if k !in pods {
        return false;
      }
      var pod := pods[k];
      if IsSameProcess(procs, pod.pid, pod.pidStart) {
        return true;
      }
      var port := pod.hostPort;
      if port == 0 {
        var claimed := ClaimedPorts(pods, scan, node);
        var found := AllocateHostPort(claimed, busy, deployments[k.deployment].port);
        if found.None? {
          return false;
        }
        port := found.value;
      }
      match launch {
        case Fails(marked) =>
          if marked {
            pods := pods[k := pod.(status := Failed)];
          }
          return false;
        case Launched(pid, start) =>
          procs := procs[pid := Proc(start, Some(Marker(pod.podId, node)))];
          used := used + {(pid, start)};
          pods := pods[k := pod.(pid := pid, pidStart := start, hostPort := port, status := Running)];
          return true;
        case Unrecorded(pid, start) =>
          procs := procs[pid := Proc(start, Some(Marker(pod.podId, node)))];
          used := used + {(pid, start)};
          return false;
      }
    }

    method Stop(k: PodKey)
      modifies this`pods, this`procs
      ensures View() == Stopped(old(View()), k)
    {
      if k !in pods {
        return;
      }
      var pod := pods[k];
      if IsSameProcess(procs, pod.pid, pod.pidStart) {
        procs := procs - {pod.pid};
      }
      pods := pods[k := pod.(pid := 0, pidStart := 0)];
    }

    method KillOrphans(entries: seq<int>, owned: set<int>)
      requires IsScan(entries, procs.Keys)
      modifies this`procs
      ensures View() == OrphansKilled(Progress(old(View()), owned))
    {
      ghost var s := Progress(View(), owned);
      for i := 0 to |entries|
        invariant procs == KilledSome(s, Elements(entries[..i]))
      {
        var pid := entries[i];
        ScanPrefix(entries, s.host.procs.Keys, i);
        assert pid in Elements(entries);
        KillOneMore(s, Elements(entries[..i]), pid);
        if pid == self { continue; }
        if pid in owned { continue; }
        var marker := procs[pid].marker;
        if marker.None? || marker.value.podId == "" || marker.value.nodeId != node { continue; }
        procs := procs - {pid};
      }
      assert entries[..|entries|] == entries;
    }

    // One pod of the startup scan: adopt its process, or respawn it.
    method VisitPod(k: PodKey, scan: seq<PodKey>, launch: Launch, busy: set<int>, owned: set<int>)
      returns (claimed: set<int>)
      requires k in pods && IsScan(scan, pods.Keys)
      modifies this`pods, this`procs, this`used
      ensures pods.Keys == old(pods.Keys)
      ensures Progress(View(), claimed) == Visit(Progress(old(View()), owned), k, launch, busy)
    {
      hide PortFor;
      claimed := owned;
      var pod := pods[k];
      if pod.nodeId != node || pod.status == Evicted { return; }
      if IsSameProcess(procs, pod.pid, pod.pidStart) {
        claimed := owned + {pod.pid};
        if pod.status != Running {
          pods := pods[k := pod.(status := Running)];
        }
        return;
      }
      var ok := Spawn(k, scan, launch, busy);
      if ok && pods[k].pid > 0 {
        claimed := owned + {pods[k].pid};
      }
    }

    // `listing` is the order the process table happens to be read in.
    method ReconcileOnStartup(scan: seq<PodKey>, plan: map<PodKey, Launch>, busy: set<int>,
                              listing: set<int> -> seq<int>)
      requires IsScan(scan, pods.Keys) && (forall k :: k in scan ==> k in plan)
      requires forall pids :: IsScan(listing(pids), pids)
      modifies this`pods, this`procs, this`used
      ensures View() == Startup(old(View()), scan, plan, busy)
    {
      hide Visit, OrphansKilled;
      ghost var h := View();
      var owned: set<int> := {};
      for i := 0 to |scan|
        invariant pods.Keys == h.pods.Keys
        invariant Progress(View(), owned) == VisitAll(Progress(h, {}), scan[..i], plan, busy)
      {
        assert scan[i] in Elements(scan) && scan[..i + 1][..i] == scan[..i];
        owned := VisitPod(scan[i], scan, plan[scan[i]], busy, owned);
      }
      assert scan[..|scan|] == scan;
      KillOrphans(listing(procs.Keys), owned);
    }
  }

  // What a spawn comes to, as the pod's record shows it.
  function ResultOf(h: Host, k: PodKey, launch: Launch, busy: set<int>): Health.SpawnResult {
    if k.deployment !in h.deployments || k !in h.pods then Health.Refused
    else if Alive(h.procs, h.pods[k]) then Health.AlreadyAlive
    else if PortFor(h, k, busy).None? then Health.Refused
    else
      match launch
      case Fails(marked) => if marked then Health.SpawnFailed else Health.Refused
      case Launched(pid, start) => Health.SpawnedOk(pid, start, PortFor(h, k, busy).value)
      case Unrecorded(_, _) => Health.Refused
  }

  // The agent's spawn and the record update the control plane and the health loop reason about are the same: it
  // touches this record only, and as that outcome says.
  lemma SpawnWrites(h: Host, k: PodKey, launch: Launch, busy: set<int>)
    ensures Spawned(h, k, launch, busy).pods
         == if k in h.pods then h.pods[k := Health.AfterSpawn(h.pods[k], ResultOf(h, k, launch, busy))] else h.pods
  {
    hide PortFor;
  }

  // The orphan scan part way through the process table.
  function KilledSome(s: Progress, seen: set<int>): map<int, Proc> {
    map pid | pid in s.host.procs && !(pid in seen && IsOrphan(s, pid)) :: s.host.procs[pid]
  }

  lemma KillOneMore(s: Progress, seen: set<int>, pid: int)
    requires pid in s.host.procs && pid !in seen
    ensures pid in KilledSome(s, seen) && KilledSome(s, seen)[pid] == s.host.procs[pid]
    ensures KilledSome(s, seen + {pid})
         == if IsOrphan(s, pid) then KilledSome(s, seen) - {pid} else KilledSome(s, seen)
  {
  }
}
