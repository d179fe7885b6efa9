/** A node's workload processes: identity, spawn, stop and startup reconciliation
    (internal/supervisor/spawn.go, reconcile.go, process.go). */
module Agent {
  import opened Collections
  import opened Schema
  import opened Ports

  /** The pod and node identity carried in a process's environment. */
  datatype Marker = Marker(podId: PodId, nodeId: NodeId)

  datatype Proc = Proc(start: nat, marker: Option<Marker>)

  /** One machine and the records that concern it. `used` is every (pid, start time) pair the kernel ever handed out. */
  datatype Host = Host(
    node: NodeId, self: int, deployments: map<string, Deployment>, pods: map<PodKey, Pod>, procs: map<int, Proc>,
    used: set<(int, nat)>)

  // The pid must still belong to the process recorded, by its start time; an unset start time never matches.
  predicate IsSameProcess(procs: map<int, Proc>, pid: int, start: nat) {
    pid > 0 && start != 0 && pid in procs && procs[pid].start == start
  }

  predicate Alive(procs: map<int, Proc>, p: Pod) { IsSameProcess(procs, p.pid, p.pidStart) }

  /** How a launch ends: failed with the process gone, recorded, or running without its record having been written. */
  datatype Launch = Fails(marked: bool) | Launched(pid: int, start: nat) | Unrecorded(pid: int, start: nat)

  predicate FreshPair(h: Host, pid: int, start: nat) {
    pid > 0 && start > 0 && pid !in h.procs && (pid, start) !in h.used
  }

  function WithProc(h: Host, pid: int, start: nat, podId: PodId): Host {
    h.(procs := h.procs[pid := Proc(start, Some(Marker(podId, h.node)))], used := h.used + {(pid, start)})
  }

  function Recorded(p: Pod, pid: int, start: nat, port: int): Pod {
    p.(pid := pid, pidStart := start, hostPort := port, status := Running)
  }

  // A restart keeps the port it had; ingress upstreams depend on it.
  function PortFor(h: Host, k: PodKey, busy: set<int>): Option<int>
    requires k in h.pods && k.deployment in h.deployments
  {
    if h.pods[k].hostPort != 0 then Some(h.pods[k].hostPort)
    else Allocate(Claimed(h.pods, h.node), busy, h.deployments[k.deployment].port)
  }

  // Nothing happens unless the deployment and the pod exist, the pod has no verified process and a port is found.
  predicate CanLaunch(h: Host, k: PodKey, busy: set<int>) {
    && k.deployment in h.deployments && k in h.pods
    && !Alive(h.procs, h.pods[k]) && PortFor(h, k, busy).Some?
  }

  function Spawned(h: Host, k: PodKey, launch: Launch, busy: set<int>): Host {
    if !CanLaunch(h, k, busy) then h
    else
      var p, port := h.pods[k], PortFor(h, k, busy).value;
      match launch
      case Fails(marked) => if marked then h.(pods := h.pods[k := p.(status := Failed)]) else h
      case Launched(pid, start) =>
        WithProc(h, pid, start, p.podId).(pods := h.pods[k := Recorded(p, pid, start, port)])
      case Unrecorded(pid, start) => WithProc(h, pid, start, p.podId)
  }

  // Whether Spawn returns without an error.
  predicate SpawnOk(h: Host, k: PodKey, launch: Launch, busy: set<int>) {
    && k.deployment in h.deployments && k in h.pods
    && (Alive(h.procs, h.pods[k]) || (CanLaunch(h, k, busy) && launch.Launched?))
  }

  // Identity is cleared even if there was no process to signal.
  function Stopped(h: Host, k: PodKey): Host {
    if k !in h.pods then h
    else
      var p := h.pods[k];
      h.(procs := if Alive(h.procs, p) then h.procs - {p.pid} else h.procs,
         pods := h.pods[k := p.(pid := 0, pidStart := 0)])
  }

  // ----- the invariant -----

  predicate Here(h: Host, k: PodKey) { k in h.pods && h.pods[k].nodeId == h.node }

  ghost predicate ProcsKnown(h: Host) {
    forall pid :: pid in h.procs ==> pid > 0 && h.procs[pid].start > 0 && (pid, h.procs[pid].start) in h.used
  }

  // A recorded pair was really handed out, and to one pod of this node only.
  ghost predicate IdentitiesDistinct(h: Host) {
    && (forall k :: Here(h, k) && h.pods[k].pidStart != 0 ==> (h.pods[k].pid, h.pods[k].pidStart) in h.used)
    && (forall k, j :: Here(h, k) && Here(h, j) && k != j && h.pods[k].pidStart != 0 ==>
          h.pods[k].pid != h.pods[j].pid || h.pods[k].pidStart != h.pods[j].pidStart)
  }

  // A live recorded process carries the marker of the pod that records it.
  ghost predicate MarkersTrue(h: Host) {
    forall k :: Here(h, k) && Alive(h.procs, h.pods[k]) ==>
      h.procs[h.pods[k].pid].marker == Some(Marker(h.pods[k].podId, h.node))
  }

  ghost predicate PodsNamed(h: Host) {
    forall k :: k in h.pods ==> h.pods[k].podId != "" && k == PodKey(h.pods[k].deployment, h.pods[k].podId)
  }

  ghost predicate PortsDistinct(h: Host) {
    && (forall k :: Here(h, k) && h.pods[k].hostPort != 0 ==> InPortRange(h.pods[k].hostPort))
    && (forall k, j :: Here(h, k) && Here(h, j) && k != j && h.pods[k].hostPort != 0 ==>
          h.pods[k].hostPort != h.pods[j].hostPort)
  }

  ghost predicate Inv(h: Host) {
    ProcsKnown(h) && IdentitiesDistinct(h) && MarkersTrue(h) && PodsNamed(h) && PortsDistinct(h)
  }

  predicate LaunchOk(h: Host, launch: Launch) { launch.Fails? || FreshPair(h, launch.pid, launch.start) }

  lemma PortForUnclaimed(h: Host, k: PodKey, busy: set<int>)
    requires Inv(h) && Here(h, k) && k.deployment in h.deployments && PortFor(h, k, busy).Some?
    ensures var port := PortFor(h, k, busy).value;
            && InPortRange(port)
            && (h.pods[k].hostPort != 0 ==> port == h.pods[k].hostPort)
            && (forall j :: Here(h, j) && j != k ==> h.pods[j].hostPort != port)
  {
    if h.pods[k].hostPort == 0 {
      AllocationSucceeds(Claimed(h.pods, h.node), busy, h.deployments[k.deployment].port);
      assert forall j :: Here(h, j) && h.pods[j].hostPort > 0 ==> h.pods[j].hostPort in Claimed(h.pods, h.node);
    }
  }

  // Every spawn keeps the invariant; a successful launch keeps a port the pod already had and takes a free one
  // otherwise.
  lemma SpawnKeeps(h: Host, k: PodKey, launch: Launch, busy: set<int>)
    requires Inv(h) && Here(h, k) && LaunchOk(h, launch)
    ensures Inv(Spawned(h, k, launch, busy))
    ensures CanLaunch(h, k, busy) && launch.Launched? ==>
              var port := Spawned(h, k, launch, busy).pods[k].hostPort;
              if h.pods[k].hostPort != 0 then port == h.pods[k].hostPort
              else Usable(port, Claimed(h.pods, h.node), busy)
  {
    if CanLaunch(h, k, busy) {
      AllocationSucceeds(Claimed(h.pods, h.node), busy, h.deployments[k.deployment].port);
      SpawnKeepsProcs(h, k, launch, busy);
      SpawnKeepsPorts(h, k, launch, busy);
    }
  }

  lemma SpawnKeepsProcs(h: Host, k: PodKey, launch: Launch, busy: set<int>)
    requires Inv(h) && Here(h, k) && LaunchOk(h, launch) && CanLaunch(h, k, busy)
    ensures ProcsKnown(Spawned(h, k, launch, busy)) && IdentitiesDistinct(Spawned(h, k, launch, busy))
    ensures MarkersTrue(Spawned(h, k, launch, busy)) && PodsNamed(Spawned(h, k, launch, busy))
  {
    SpawnKeepsIdentities(h, k, launch, busy);
    SpawnKeepsMarkers(h, k, launch, busy);
  }

  lemma SpawnKeepsIdentities(h: Host, k: PodKey, launch: Launch, busy: set<int>)
    requires Inv(h) && Here(h, k) && LaunchOk(h, launch) && CanLaunch(h, k, busy)
    ensures ProcsKnown(Spawned(h, k, launch, busy)) && IdentitiesDistinct(Spawned(h, k, launch, busy))
    ensures PodsNamed(Spawned(h, k, launch, busy))
  {
    hide PortsDistinct, PortFor, MarkersTrue;
  }

  lemma SpawnKeepsMarkers(h: Host, k: PodKey, launch: Launch, busy: set<int>)
    requires Inv(h) && Here(h, k) && LaunchOk(h, launch) && CanLaunch(h, k, busy)
    ensures MarkersTrue(Spawned(h, k, launch, busy))
  {
    hide PortsDistinct, PortFor, PodsNamed, ProcsKnown;
    var h' := Spawned(h, k, launch, busy);
    if !launch.Fails? {
      forall j | Here(h, j) && Alive(h'.procs, h.pods[j])
        ensures Alive(h.procs, h.pods[j])
      {
        assert (h.pods[j].pid, h.pods[j].pidStart) in h.used;
      }
    }
  }

  lemma SpawnKeepsPorts(h: Host, k: PodKey, launch: Launch, busy: set<int>)
    requires Inv(h) && Here(h, k) && LaunchOk(h, launch) && CanLaunch(h, k, busy)
    ensures PortsDistinct(Spawned(h, k, launch, busy))
  {
    PortForUnclaimed(h, k, busy);
    hide PortFor, ProcsKnown, IdentitiesDistinct, MarkersTrue, PodsNamed;
  }

  lemma StopKeeps(h: Host, k: PodKey)
    requires Inv(h)
    ensures Inv(Stopped(h, k))
  {
    StopKeepsProcs(h, k);
    StopKeepsPods(h, k);
  }

  lemma StopKeepsProcs(h: Host, k: PodKey)
    requires Inv(h)
    ensures ProcsKnown(Stopped(h, k)) && MarkersTrue(Stopped(h, k))
  {
    hide PortsDistinct, PodsNamed;
  }

  lemma StopKeepsPods(h: Host, k: PodKey)
    requires Inv(h)
    ensures IdentitiesDistinct(Stopped(h, k)) && PodsNamed(Stopped(h, k)) && PortsDistinct(Stopped(h, k))
  {
    hide ProcsKnown, MarkersTrue;
  }

  // Stop signals nobody but the pod's own process, however often its pid was reused.
  lemma StopKillsOnlyItsOwn(h: Host, k: PodKey, pid: int)
    requires Inv(h) && Here(h, k) && pid in h.procs && pid !in Stopped(h, k).procs
    ensures h.procs[pid].marker == Some(Marker(h.pods[k].podId, h.node))
  {
  }

  // A stop leaves nothing of the pod's process behind: a verified one is gone, the record points at none, and every
  // other process and record is as it was.
  lemma StopEndsProcess(h: Host, k: PodKey)
    requires k in h.pods
    ensures var h' := Stopped(h, k);
            && (Alive(h.procs, h.pods[k]) ==> h.pods[k].pid !in h'.procs)
            && h'.pods[k] == h.pods[k].(pid := 0, pidStart := 0) && !Alive(h'.procs, h'.pods[k])
            && (forall pid :: pid in h.procs && !(Alive(h.procs, h.pods[k]) && pid == h.pods[k].pid) ==>
                  pid in h'.procs && h'.procs[pid] == h.procs[pid])
            && h'.procs.Keys <= h.procs.Keys && h'.pods.Keys == h.pods.Keys
            && (forall j :: j in h.pods && j != k ==> h'.pods[j] == h.pods[j])
  {
  }

  // ----- startup -----

  /** Startup part way through its scan: `owned` holds the pids of the processes a live pod claims. */
  datatype Progress = Progress(host: Host, owned: set<int>)

  // Adopt a verified process, respawn a missing one, leave other nodes' pods and Evicted pods alone.
  function Visit(s: Progress, k: PodKey, launch: Launch, busy: set<int>): Progress {
    var h := s.host;
    if !Here(h, k) || h.pods[k].status == Evicted then s
    else if Alive(h.procs, h.pods[k]) then
      Progress(h.(pods := h.pods[k := h.pods[k].(status := Running)]), s.owned + {h.pods[k].pid})
    else
      var h' := Spawned(h, k, launch, busy);
      if SpawnOk(h, k, launch, busy) && h'.pods[k].pid > 0 then Progress(h', s.owned + {h'.pods[k].pid})
      else Progress(h', s.owned)
  }

  function VisitAll(s: Progress, scan: seq<PodKey>, plan: map<PodKey, Launch>, busy: set<int>): Progress
    requires forall k :: k in scan ==> k in plan
    decreases |scan|
  {
    if scan == [] then s
    else
      var n := |scan| - 1;
      Visit(VisitAll(s, scan[..n], plan, busy), scan[n], plan[scan[n]], busy)
  }

  // This node's marker, readable and naming a pod.
  predicate Marked(h: Host, pid: int) {
    pid in h.procs && h.procs[pid].marker.Some? && h.procs[pid].marker.value.podId != ""
    && h.procs[pid].marker.value.nodeId == h.node
  }

  predicate IsOrphan(s: Progress, pid: int) { pid != s.host.self && pid !in s.owned && Marked(s.host, pid) }

  function OrphansKilled(s: Progress): Host {
    s.host.(procs := map pid | pid in s.host.procs && !IsOrphan(s, pid) :: s.host.procs[pid])
  }

  function Startup(h: Host, scan: seq<PodKey>, plan: map<PodKey, Launch>, busy: set<int>): Host
    requires forall k :: k in scan ==> k in plan
  {
    OrphansKilled(VisitAll(Progress(h, {}), scan, plan, busy))
  }

  // The launches of one startup get pairs the kernel never used, and no pid twice.
  ghost predicate PlanOk(h: Host, plan: map<PodKey, Launch>) {
    && (forall k :: k in plan ==> !plan[k].Unrecorded? && LaunchOk(h, plan[k]))
    && (forall k, j :: k in plan && j in plan && k != j && plan[k].Launched? && plan[j].Launched? ==>
          plan[k].pid != plan[j].pid)
  }

  // The recorded, verified process of a pod that is this node's business.
  predicate Serves(h: Host, k: PodKey, pid: int) {
    Here(h, k) && h.pods[k].status != Evicted && h.pods[k].pid == pid && Alive(h.procs, h.pods[k])
  }

  // Processes and pairs only appear, and only those the launches of visited pods brought.
  ghost predicate Grown(h0: Host, h: Host, done: set<PodKey>, plan: map<PodKey, Launch>) {
    && h.node == h0.node && h.self == h0.self && h.deployments == h0.deployments
    && (forall pid :: pid in h0.procs ==> pid in h.procs && h.procs[pid] == h0.procs[pid])
    && (forall pid :: pid in h.procs ==> pid in h0.procs || Brought(done, plan, pid))
    && (forall u :: u in h.used ==> u in h0.used || Brought(done, plan, u.0))
  }

  ghost predicate Brought(done: set<PodKey>, plan: map<PodKey, Launch>, pid: int) {
    exists k :: k in done && k in plan && plan[k].Launched? && plan[k].pid == pid
  }

  // Records not yet visited are as they were, and none moves or changes its standing.
  ghost predicate RecordsKept(h0: Host, h: Host, done: set<PodKey>) {
    && h.pods.Keys == h0.pods.Keys
    && (forall k :: k in h0.pods && k !in done ==> h.pods[k] == h0.pods[k])
    && (forall k :: k in h0.pods ==> h.pods[k].nodeId == h0.pods[k].nodeId)
    && (forall k :: k in h0.pods ==> (h.pods[k].status == Evicted <==> h0.pods[k].status == Evicted))
  }

  ghost predicate OwnedServe(h: Host, owned: set<int>) { forall pid :: pid in owned ==> exists k :: Serves(h, k, pid) }

  // A process verified before startup still serves the same pod, and is owned once the pod is visited.
  ghost predicate AdoptedKept(h0: Host, h: Host, owned: set<int>, done: set<PodKey>) {
    forall k, pid :: Serves(h0, k, pid) ==> Serves(h, k, pid) && (k in done ==> pid in owned)
  }

  ghost predicate VisitInv(h0: Host, s: Progress, done: set<PodKey>, plan: map<PodKey, Launch>) {
    && Inv(s.host) && Grown(h0, s.host, done, plan) && RecordsKept(h0, s.host, done)
    && OwnedServe(s.host, s.owned) && AdoptedKept(h0, s.host, s.owned, done)
  }

  lemma LaunchStillFresh(h0: Host, h: Host, done: set<PodKey>, plan: map<PodKey, Launch>, k: PodKey)
    requires PlanOk(h0, plan) && Grown(h0, h, done, plan) && k in plan && k !in done
    ensures LaunchOk(h, plan[k])
  {
  }

  lemma StatusKeeps(h: Host, k: PodKey, status: Status)
    requires Inv(h) && k in h.pods
    ensures Inv(h.(pods := h.pods[k := h.pods[k].(status := status)]))
  {
    StatusKeepsIdentities(h, k, status);
    StatusKeepsPorts(h, k, status);
  }

  lemma StatusKeepsIdentities(h: Host, k: PodKey, status: Status)
    requires Inv(h) && k in h.pods
    ensures var h' := h.(pods := h.pods[k := h.pods[k].(status := status)]);
            ProcsKnown(h') && IdentitiesDistinct(h') && MarkersTrue(h')
  {
    hide PortsDistinct, PodsNamed;
  }

  lemma StatusKeepsPorts(h: Host, k: PodKey, status: Status)
    requires Inv(h) && k in h.pods
    ensures var h' := h.(pods := h.pods[k := h.pods[k].(status := status)]);
            PodsNamed(h') && PortsDistinct(h')
  {
    hide ProcsKnown, IdentitiesDistinct, MarkersTrue;
  }

  // What a spawn leaves alone.
  lemma SpawnFrame(h: Host, k: PodKey, launch: Launch, busy: set<int>)
    requires Inv(h) && Here(h, k) && LaunchOk(h, launch) && !launch.Unrecorded?
    ensures var h' := Spawned(h, k, launch, busy);
            && h'.node == h.node && h'.self == h.self && h'.deployments == h.deployments && h'.pods.Keys == h.pods.Keys
            && (forall j :: j in h.pods && j != k ==> h'.pods[j] == h.pods[j])
            && h'.pods[k].nodeId == h.pods[k].nodeId
            && (forall pid :: pid in h.procs ==> pid in h'.procs && h'.procs[pid] == h.procs[pid])
            && (forall pid :: pid in h'.procs && pid !in h.procs ==> launch.Launched? && pid == launch.pid)
            && (forall u :: u in h'.used && u !in h.used ==> launch.Launched? && u.0 == launch.pid)
            && (h.pods[k].status != Evicted ==> h'.pods[k].status != Evicted)
            && (SpawnOk(h, k, launch, busy) ==> Alive(h'.procs, h'.pods[k]))
  {
    hide PortFor;
  }

  lemma VisitKeeps(h0: Host, s: Progress, done: set<PodKey>, plan: map<PodKey, Launch>, k: PodKey, busy: set<int>)
    requires PlanOk(h0, plan) && VisitInv(h0, s, done, plan) && k in plan && k !in done && k in h0.pods
    ensures VisitInv(h0, Visit(s, k, plan[k], busy), done + {k}, plan)
  {
    hide Inv, PlanOk, LaunchOk, Spawned, SpawnOk;
    var h := s.host;
    if !Here(h, k) || h.pods[k].status == Evicted {
      SkipKeeps(h0, s, done, plan, k);
    } else if Alive(h.procs, h.pods[k]) {
      StatusKeeps(h, k, Running);
      AdoptRest(h0, s, done, plan, k);
    } else {
      LaunchStillFresh(h0, h, done, plan, k);
      SpawnKeeps(h, k, plan[k], busy);
      NotUnrecorded(h0, plan, k);
      SpawnRest(h0, s, done, plan, k, busy);
    }
  }

  lemma NotUnrecorded(h0: Host, plan: map<PodKey, Launch>, k: PodKey)
    requires PlanOk(h0, plan) && k in plan
    ensures !plan[k].Unrecorded?
  {
  }

  lemma BroughtMore(done: set<PodKey>, plan: map<PodKey, Launch>, k: PodKey)
    ensures forall pid :: Brought(done, plan, pid) ==> Brought(done + {k}, plan, pid)
    ensures k in plan && plan[k].Launched? ==> Brought(done + {k}, plan, plan[k].pid)
  {
    assert k in plan && plan[k].Launched? ==> k in done + {k};
  }

  lemma SkipKeeps(h0: Host, s: Progress, done: set<PodKey>, plan: map<PodKey, Launch>, k: PodKey)
    requires VisitInv(h0, s, done, plan) && (!Here(s.host, k) || s.host.pods[k].status == Evicted)
    ensures VisitInv(h0, s, done + {k}, plan)
  {
    hide Inv, Brought;
    BroughtMore(done, plan, k);
  }

  lemma AdoptRest(h0: Host, s: Progress, done: set<PodKey>, plan: map<PodKey, Launch>, k: PodKey)
    requires VisitInv(h0, s, done, plan) && Here(s.host, k) && s.host.pods[k].status != Evicted
    requires Alive(s.host.procs, s.host.pods[k]) && k !in done
    ensures var h := s.host;
            var h' := h.(pods := h.pods[k := h.pods[k].(status := Running)]);
            && Grown(h0, h', done + {k}, plan) && RecordsKept(h0, h', done + {k})
            && OwnedServe(h', s.owned + {h.pods[k].pid}) && AdoptedKept(h0, h', s.owned + {h.pods[k].pid}, done + {k})
  {
    hide Inv, Brought;
    var h := s.host;
    var h' := h.(pods := h.pods[k := h.pods[k].(status := Running)]);
    BroughtMore(done, plan, k);
    forall j, pid
      ensures Serves(h, j, pid) ==> Serves(h', j, pid)
    {
    }
    assert Serves(h', k, h.pods[k].pid);
  }

  lemma SpawnRest(h0: Host, s: Progress, done: set<PodKey>, plan: map<PodKey, Launch>, k: PodKey, busy: set<int>)
    requires VisitInv(h0, s, done, plan) && Here(s.host, k) && s.host.pods[k].status != Evicted
    requires !Alive(s.host.procs, s.host.pods[k]) && k !in done && k in plan
    requires LaunchOk(s.host, plan[k]) && !plan[k].Unrecorded?
    ensures var s' := Visit(s, k, plan[k], busy);
            && Grown(h0, s'.host, done + {k}, plan) && RecordsKept(h0, s'.host, done + {k})
            && OwnedServe(s'.host, s'.owned) && AdoptedKept(h0, s'.host, s'.owned, done + {k})
  {
    hide Inv, Grown, RecordsKept, OwnedServe, AdoptedKept, Spawned, SpawnOk, LaunchOk;
    SpawnGrows(h0, s, done, plan, k, busy);
    SpawnServes(h0, s, done, plan, k, busy);
  }

  lemma SpawnGrows(h0: Host, s: Progress, done: set<PodKey>, plan: map<PodKey, Launch>, k: PodKey, busy: set<int>)
    requires VisitInv(h0, s, done, plan) && Here(s.host, k) && s.host.pods[k].status != Evicted && k in plan
    requires LaunchOk(s.host, plan[k]) && !plan[k].Unrecorded?
    ensures var h' := Spawned(s.host, k, plan[k], busy);
            Grown(h0, h', done + {k}, plan) && RecordsKept(h0, h', done + {k})
  {
    hide Inv, Brought, Spawned, SpawnOk, LaunchOk, OwnedServe, AdoptedKept, Alive;
    BroughtMore(done, plan, k);
    SpawnFrame(s.host, k, plan[k], busy);
  }

  lemma SpawnServes(h0: Host, s: Progress, done: set<PodKey>, plan: map<PodKey, Launch>, k: PodKey, busy: set<int>)
    requires VisitInv(h0, s, done, plan) && Here(s.host, k) && s.host.pods[k].status != Evicted
    requires !Alive(s.host.procs, s.host.pods[k]) && k !in done && k in plan
    requires LaunchOk(s.host, plan[k]) && !plan[k].Unrecorded?
    ensures var s' := Visit(s, k, plan[k], busy);
            OwnedServe(s'.host, s'.owned) && AdoptedKept(h0, s'.host, s'.owned, done + {k})
  {
    hide Inv, Grown, Spawned, SpawnOk, LaunchOk;
    var h := s.host;
    var h' := Spawned(h, k, plan[k], busy);
    SpawnFrame(h, k, plan[k], busy);
    forall j, pid
      ensures Serves(h, j, pid) ==> Serves(h', j, pid)
    {
    }
    if SpawnOk(h, k, plan[k], busy) {
      assert Serves(h', k, h'.pods[k].pid);
    }
  }

  lemma {:induction false} VisitAllKeeps(h: Host, scan: seq<PodKey>, plan: map<PodKey, Launch>, busy: set<int>)
    requires Inv(h) && PlanOk(h, plan)
    requires forall k :: k in scan ==> k in plan && k in h.pods
    requires forall i, j :: 0 <= i < j < |scan| ==> scan[i] != scan[j]
    ensures VisitInv(h, VisitAll(Progress(h, {}), scan, plan, busy), Elements(scan), plan)
    decreases |scan|
  {
    hide Inv, PlanOk, Visit, VisitInv;
    if scan == [] {
      VisitStarts(h, plan);
    } else {
      var n := |scan| - 1;
      VisitAllKeeps(h, scan[..n], plan, busy);
      assert scan[n] !in Elements(scan[..n]) && Elements(scan[..n]) + {scan[n]} == Elements(scan);
      VisitKeeps(h, VisitAll(Progress(h, {}), scan[..n], plan, busy), Elements(scan[..n]), plan, scan[n], busy);
    }
  }

  lemma VisitStarts(h: Host, plan: map<PodKey, Launch>)
    requires Inv(h)
    ensures VisitInv(h, Progress(h, {}), {}, plan) && Elements<PodKey>([]) == {}
  {
    hide Inv;
  }

  lemma KillKeeps(s: Progress)
    requires Inv(s.host) && OwnedServe(s.host, s.owned)
    ensures Inv(OrphansKilled(s))
    ensures forall k, pid :: Serves(s.host, k, pid) && pid in s.owned ==> Serves(OrphansKilled(s), k, pid)
  {
  }

  lemma ServesUnique(h: Host, k: PodKey, j: PodKey, pid: int)
    requires Inv(h) && Serves(h, k, pid) && Serves(h, j, pid)
    ensures k == j
  {
    hide MarkersTrue, PodsNamed, PortsDistinct, ProcsKnown;
  }

  ghost predicate ServedOnce(h: Host, pid: int) {
    exists k :: Serves(h, k, pid) && forall j :: Serves(h, j, pid) ==> j == k
  }

  // The environment names a pod, and this node.
  ghost predicate CarriesMarker(proc: Proc, node: NodeId) {
    exists id :: proc.marker == Some(Marker(id, node)) && id != ""
  }

  // After a completed startup every process with this node's marker is the recorded process of exactly one pod of
  // this node that is not Evicted; what was verified before is still running and still recorded; no process without
  // the marker was killed, nor was the agent itself.
  lemma StartupLeavesNoStrays(h: Host, scan: seq<PodKey>, plan: map<PodKey, Launch>, busy: set<int>)
    requires Inv(h) && PlanOk(h, plan) && IsScan(scan, h.pods.Keys) && (forall k :: k in scan ==> k in plan)
    ensures var h' := Startup(h, scan, plan, busy);
            && Inv(h') && h'.node == h.node && h'.self == h.self
            && (forall pid :: pid in h'.procs && CarriesMarker(h'.procs[pid], h.node) && pid != h.self ==>
                  ServedOnce(h', pid))
            && (forall k, pid :: Serves(h, k, pid) ==> Serves(h', k, pid) && h'.procs[pid] == h.procs[pid])
            && (forall pid :: pid in h.procs && (pid == h.self || !CarriesMarker(h.procs[pid], h.node)) ==>
                  pid in h'.procs && h'.procs[pid] == h.procs[pid])
  {
    hide Inv, PlanOk, VisitAll;
    assert forall k :: k in scan ==> k in Elements(scan);
    VisitAllKeeps(h, scan, plan, busy);
    var s := VisitAll(Progress(h, {}), scan, plan, busy);
    KillKeeps(s);
    var h' := OrphansKilled(s);
    forall pid | pid in h'.procs && CarriesMarker(h'.procs[pid], h.node) && pid != h.self
      ensures ServedOnce(h', pid)
    {
      assert Marked(s.host, pid) && pid in s.owned;
      var k :| Serves(s.host, k, pid);
      assert Serves(h', k, pid);
      forall j | Serves(h', j, pid)
        ensures j == k
      {
        ServesUnique(h', k, j, pid);
      }
    }
    forall k, pid | Serves(h, k, pid)
      ensures Serves(h', k, pid) && h'.procs[pid] == h.procs[pid]
    {
      assert k in Elements(scan);
    }
  }

  // ----- runs -----

  datatype Event =
    | Spawn(key: PodKey, launch: Launch, busy: set<int>)     // start command, restart, or a crash mid-launch
    | Stop(key: PodKey)
    | StartUp(scan: seq<PodKey>, plan: map<PodKey, Launch>, busy: set<int>)
    | Die(pid: int)
    | Foreign(pid: int, proc: Proc)                          // someone else's process, possibly on a recycled pid
    | AddPod(key: PodKey, pod: Pod)
    | DropPod(key: PodKey)                                   // removed by its agent or by the controller
    | SetStatus(key: PodKey, status: Status)                 // probes, backoff, eviction
    | SetDeployments(deployments: map<string, Deployment>)

  ghost predicate Possible(h: Host, e: Event) {
    match e
    case Spawn(k, launch, _) => Here(h, k) && LaunchOk(h, launch)
    case Stop(_) => true
    case StartUp(scan, plan, _) => PlanOk(h, plan) && IsScan(scan, h.pods.Keys) && forall k :: k in scan ==> k in plan
    case Die(_) => true
    case Foreign(pid, proc) =>
      FreshPair(h, pid, proc.start) && (proc.marker.Some? ==> proc.marker.value.nodeId != h.node)
    case AddPod(k, p) =>
      && k !in h.pods && p.podId != "" && k == PodKey(p.deployment, p.podId)
      && (p.nodeId == h.node ==> p.pid == 0 && p.pidStart == 0 && p.hostPort == 0)
    case DropPod(_) => true
    case SetStatus(k, _) => k in h.pods
    case SetDeployments(_) => true
  }

  ghost function Happened(h: Host, e: Event): Host
    requires Possible(h, e)
  {
    match e
    case Spawn(k, launch, busy) => Spawned(h, k, launch, busy)
    case Stop(k) => Stopped(h, k)
    case StartUp(scan, plan, busy) => Startup(h, scan, plan, busy)
    case Die(pid) => h.(procs := h.procs - {pid})
    case Foreign(pid, proc) => h.(procs := h.procs[pid := proc], used := h.used + {(pid, proc.start)})
    case AddPod(k, p) => h.(pods := h.pods[k := p])
    case DropPod(k) => h.(pods := h.pods - {k})
    case SetStatus(k, status) => h.(pods := h.pods[k := h.pods[k].(status := status)])
    case SetDeployments(deployments) => h.(deployments := deployments)
  }

  ghost predicate IsRun(h: Host, events: seq<Event>)
    decreases |events|
  {
    events == [] || (Possible(h, events[0]) && IsRun(Happened(h, events[0]), events[1..]))
  }

  ghost function After(h: Host, events: seq<Event>): Host
    requires IsRun(h, events)
    decreases |events|
  {
    if events == [] then h else After(Happened(h, events[0]), events[1..])
  }

  lemma ForeignKeeps(h: Host, pid: int, proc: Proc)
    requires Inv(h) && FreshPair(h, pid, proc.start)
    ensures Inv(h.(procs := h.procs[pid := proc], used := h.used + {(pid, proc.start)}))
  {
    hide PortsDistinct;
    var h' := h.(procs := h.procs[pid := proc], used := h.used + {(pid, proc.start)});
    forall j | Here(h, j) && Alive(h'.procs, h.pods[j])
      ensures Alive(h.procs, h.pods[j])
    {
      assert (h.pods[j].pid, h.pods[j].pidStart) in h.used;
    }
    SamePorts(h, h');
  }

  lemma SamePorts(h: Host, h': Host)
    requires PortsDistinct(h) && h'.pods == h.pods && h'.node == h.node
    ensures PortsDistinct(h')
  {
  }

  lemma EventKeeps(h: Host, e: Event)
    requires Inv(h) && Possible(h, e)
    ensures Inv(Happened(h, e))
  {
    hide Inv, Spawned, Stopped, Startup, PlanOk, LaunchOk;
    match e
    case Spawn(k, launch, busy) => SpawnKeeps(h, k, launch, busy);
    case Stop(k) => StopKeeps(h, k);
    case StartUp(scan, plan, busy) => StartupLeavesNoStrays(h, scan, plan, busy);
    case Foreign(pid, proc) => ForeignKeeps(h, pid, proc);
    case Die(pid) => DieKeeps(h, pid);
    case AddPod(k, p) => AddKeeps(h, k, p);
    case DropPod(k) => DropKeeps(h, k);
    case SetStatus(k, status) => StatusKeeps(h, k, status);
    case SetDeployments(deployments) => DeploymentsKeep(h, deployments);
  }

  lemma DieKeeps(h: Host, pid: int)
    requires Inv(h)
    ensures Inv(h.(procs := h.procs - {pid}))
  {
  }

  lemma AddKeeps(h: Host, k: PodKey, p: Pod)
    requires Inv(h) && Possible(h, AddPod(k, p))
    ensures Inv(h.(pods := h.pods[k := p]))
  {
  }

  lemma DropKeeps(h: Host, k: PodKey)
    requires Inv(h)
    ensures Inv(h.(pods := h.pods - {k}))
  {
  }

  lemma DeploymentsKeep(h: Host, deployments: map<string, Deployment>)
    requires Inv(h)
    ensures Inv(h.(deployments := deployments))
  {
  }

  // Over every run of spawns, stops, deaths, pid reuse, crashes mid-launch and restarts of the agent: recorded
  // identities and host ports stay pairwise distinct, ports in range, and a live recorded process is the pod's own.
  lemma {:induction false} IdentitiesAndPortsOverRuns(h: Host, events: seq<Event>)
    requires Inv(h) && IsRun(h, events)
    ensures Inv(After(h, events))
    decreases |events|
  {
    hide Inv, Happened, Possible;
    if events != [] {
      EventKeeps(h, events[0]);
      IdentitiesAndPortsOverRuns(Happened(h, events[0]), events[1..]);
    }
  }

  // Whatever ran before, the next completed startup leaves no duplicate and no orphan.
  lemma StartupAfterAnyRun(h: Host, events: seq<Event>, scan: seq<PodKey>, plan: map<PodKey, Launch>, busy: set<int>)
    requires Inv(h) && IsRun(h, events) && Possible(After(h, events), StartUp(scan, plan, busy))
    ensures var h' := Happened(After(h, events), StartUp(scan, plan, busy));
            forall pid :: pid in h'.procs && CarriesMarker(h'.procs[pid], h'.node) && pid != h'.self ==> ServedOnce(h', pid)
  {
    IdentitiesAndPortsOverRuns(h, events);
    StartupLeavesNoStrays(After(h, events), scan, plan, busy);
  }

  // A pod keeps the port it was given for as long as its record lives, through every restart.
  lemma {:induction false} PortIsStable(h: Host, events: seq<Event>, k: PodKey)
    requires Inv(h) && IsRun(h, events) && Here(h, k) && h.pods[k].hostPort != 0
    requires forall i :: 0 <= i < |events| ==> events[i] != DropPod(k)
    ensures Here(After(h, events), k) && After(h, events).pods[k].hostPort == h.pods[k].hostPort
    decreases |events|
  {
    hide Inv, Happened, Possible;
    if events != [] {
      EventKeeps(h, events[0]);
      PortIsStableStep(h, events[0], k);
      PortIsStable(Happened(h, events[0]), events[1..], k);
    }
  }

  lemma PortIsStableStep(h: Host, e: Event, k: PodKey)
    requires Inv(h) && Possible(h, e) && Here(h, k) && h.pods[k].hostPort != 0 && e != DropPod(k)
    ensures Here(Happened(h, e), k) && Happened(h, e).pods[k].hostPort == h.pods[k].hostPort
  {
    hide Inv, PlanOk, LaunchOk;
    if e.StartUp? {
      hide Visit, Spawned;
      VisitKeepsPort(Progress(h, {}), e.scan, e.plan, e.busy, k);
    }
  }

  lemma {:induction false} VisitKeepsPort(s: Progress, scan: seq<PodKey>, plan: map<PodKey, Launch>, busy: set<int>,
                                          k: PodKey)
    requires (forall j :: j in scan ==> j in plan) && Here(s.host, k) && s.host.pods[k].hostPort != 0
    ensures var h := VisitAll(s, scan, plan, busy).host;
            Here(h, k) && h.pods[k].hostPort == s.host.pods[k].hostPort
    decreases |scan|
  {
    hide CanLaunch, Alive;
    if scan != [] {
      VisitKeepsPort(s, scan[..|scan| - 1], plan, busy, k);
    }
  }
}
