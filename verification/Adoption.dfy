/** What startup restores (internal/supervisor/reconcile.go): every pod of the node with a process ends Running, and
    every one without gets a new process if it can be launched. */
module Adoption {
  import opened Collections
  import opened Schema
  import opened Ports
  import opened Agent

  // ----- host ports run short only if asked for too many -----

  // Pods of this node that need a port of their own.
  function Portless(h: Host): set<PodKey> { set k | k in h.pods && Here(h, k) && h.pods[k].hostPort == 0 }

  // Ports of the scan range that are taken.
  function Taken(h: Host, busy: set<int>): set<int> { ScanRange(PORT_SCAN_LIMIT) * (Claimed(h.pods, h.node) + busy) }

  // Room in the scan range for every pod without a port.
  ghost predicate RoomForAll(h: Host, busy: set<int>) { |Taken(h, busy)| + |Portless(h)| <= PORT_SCAN_LIMIT }

  // A pod without a port finds one as long as there is room for all of them.
  lemma PortFound(h: Host, k: PodKey, busy: set<int>)
    requires k in h.pods && Here(h, k) && k.deployment in h.deployments
    requires h.pods[k].hostPort != 0 || RoomForAll(h, busy)
    ensures PortFor(h, k, busy).Some?
  {
    if h.pods[k].hostPort == 0 {
      assert k in Portless(h);
      AllocationSucceeds(Claimed(h.pods, h.node), busy, h.deployments[k.deployment].port);
    }
  }

  // The record of one pod of this node rewritten; a port once recorded stays.
  ghost predicate Rewritten(h: Host, h': Host, k: PodKey) {
    && k in h.pods && Here(h, k) && h'.node == h.node && h'.pods.Keys == h.pods.Keys
    && (forall j :: j in h.pods && j != k ==> h'.pods[j] == h.pods[j])
    && h'.pods[k].nodeId == h.pods[k].nodeId
    && (h.pods[k].hostPort != 0 ==> h'.pods[k].hostPort == h.pods[k].hostPort)
  }

  // It gives at most one more claim, and only to a pod that had none.
  lemma SameClaims(h: Host, h': Host, k: PodKey, busy: set<int>)
    requires Rewritten(h, h', k) && h'.pods[k].hostPort == h.pods[k].hostPort
    ensures Portless(h') == Portless(h) && Taken(h', busy) == Taken(h, busy)
  {
    assert Claimed(h'.pods, h'.node) == Claimed(h.pods, h.node);
  }

  lemma OneMoreClaim(h: Host, h': Host, k: PodKey, busy: set<int>)
    requires Rewritten(h, h', k) && h.pods[k].hostPort == 0 && h'.pods[k].hostPort != 0
    ensures k !in Portless(h') && Portless(h) == Portless(h') + {k}
    ensures Taken(h', busy) <= Taken(h, busy) + {h'.pods[k].hostPort}
  {
    assert Claimed(h'.pods, h'.node) <= Claimed(h.pods, h.node) + {h'.pods[k].hostPort};
  }

  lemma RoomKept(h: Host, h': Host, k: PodKey, busy: set<int>)
    requires RoomForAll(h, busy) && Rewritten(h, h', k)
    ensures RoomForAll(h', busy)
  {
    if h'.pods[k].hostPort == h.pods[k].hostPort {
      SameClaims(h, h', k, busy);
    } else {
      OneMoreClaim(h, h', k, busy);
      hide Portless, Taken;
      SubsetSize(Taken(h', busy), Taken(h, busy) + {h'.pods[k].hostPort});
    }
  }

  // ----- one pod -----

  // What startup owes a pod: a verified process is adopted, a missing one replaced by the one launched for it.
  ghost predicate Restored(h: Host, s: Progress, k: PodKey, launch: Launch, busy: set<int>) {
    Here(h, k) && h.pods[k].status != Evicted ==>
      && (Alive(h.procs, h.pods[k]) ==> Runs(s, k, h.pods[k].pid, h.pods[k].pidStart))
      && (Launchable(h, k, busy) && launch.Launched? ==> Runs(s, k, launch.pid, launch.start))
  }

  // Without a process, with a deployment, and with a port of its own or room for one.
  ghost predicate Launchable(h: Host, k: PodKey, busy: set<int>) {
    && Here(h, k) && !Alive(h.procs, h.pods[k]) && k.deployment in h.deployments
    && (h.pods[k].hostPort != 0 || RoomForAll(h, busy))
  }

  ghost predicate Runs(s: Progress, k: PodKey, pid: int, start: nat) {
    && Serves(s.host, k, pid) && s.host.pods[k].pidStart == start && s.host.pods[k].status == Running && pid in s.owned
  }

  lemma VisitRestores(s: Progress, k: PodKey, launch: Launch, busy: set<int>)
    requires Inv(s.host) && (Here(s.host, k) ==> LaunchOk(s.host, launch)) && !launch.Unrecorded?
    ensures Restored(s.host, Visit(s, k, launch, busy), k, launch, busy)
  {
    hide Inv, PortFor;
    if Launchable(s.host, k, busy) {
      PortFound(s.host, k, busy);
      hide RoomForAll;
    }
  }

  // What the visit of one pod leaves alone.
  lemma VisitFrame(s: Progress, k: PodKey, launch: Launch, busy: set<int>)
    requires Inv(s.host) && LaunchOk(s.host, launch) && !launch.Unrecorded?
    ensures var s' := Visit(s, k, launch, busy);
            && s'.host.node == s.host.node && s'.host.deployments == s.host.deployments
            && s'.host.pods.Keys == s.host.pods.Keys && s.owned <= s'.owned
            && (forall j :: j in s.host.pods && j != k ==> s'.host.pods[j] == s.host.pods[j])
            && (forall pid :: pid in s.host.procs ==> pid in s'.host.procs && s'.host.procs[pid] == s.host.procs[pid])
            && (forall pid :: pid in s'.host.procs && pid !in s.host.procs ==> launch.Launched? && pid == launch.pid)
  {
    hide Inv, Spawned, SpawnOk, LaunchOk, Alive;
    if Here(s.host, k) && s.host.pods[k].status != Evicted {
      SpawnFrame(s.host, k, launch, busy);
    }
  }

  lemma VisitKeepsRoom(s: Progress, k: PodKey, launch: Launch, busy: set<int>)
    requires Inv(s.host) && LaunchOk(s.host, launch) && !launch.Unrecorded? && RoomForAll(s.host, busy)
    ensures RoomForAll(Visit(s, k, launch, busy).host, busy)
  {
    if Here(s.host, k) {
      VisitRewrites(s, k, launch, busy);
      hide RoomForAll, Rewritten, Visit;
      RoomKept(s.host, Visit(s, k, launch, busy).host, k, busy);
    }
  }

  lemma VisitRewrites(s: Progress, k: PodKey, launch: Launch, busy: set<int>)
    requires Inv(s.host) && LaunchOk(s.host, launch) && !launch.Unrecorded? && Here(s.host, k)
    ensures Rewritten(s.host, Visit(s, k, launch, busy).host, k)
  {
    hide Inv, LaunchOk, Alive;
    VisitFrame(s, k, launch, busy);
  }

  lemma RunsOn(s: Progress, s': Progress, j: PodKey, pid: int, start: nat)
    requires Runs(s, j, pid, start) && s.owned <= s'.owned && s'.host.node == s.host.node
    requires j in s'.host.pods && s'.host.pods[j] == s.host.pods[j]
    requires forall p :: p in s.host.procs ==> p in s'.host.procs && s'.host.procs[p] == s.host.procs[p]
    ensures Runs(s', j, pid, start)
  {
  }

  // A process that appeared since the start carries a pair the kernel had never used.
  ghost predicate NewIsNew(h0: Host, h: Host) {
    forall pid :: pid in h.procs && pid !in h0.procs ==> (pid, h.procs[pid].start) !in h0.used
  }

  lemma VisitBringsNew(h0: Host, s: Progress, k: PodKey, launch: Launch, busy: set<int>)
    requires NewIsNew(h0, s.host) && LaunchOk(h0, launch) && LaunchOk(s.host, launch)
    ensures NewIsNew(h0, Visit(s, k, launch, busy).host)
  {
    hide PortFor, Alive;
  }

  // So a pod whose process was gone at the start has none until its own visit.
  lemma StillGone(h0: Host, h: Host, k: PodKey)
    requires Inv(h0) && NewIsNew(h0, h) && Here(h0, k) && !Alive(h0.procs, h0.pods[k])
    requires forall pid :: pid in h0.procs ==> pid in h.procs && h.procs[pid] == h0.procs[pid]
    ensures !Alive(h.procs, h0.pods[k])
  {
  }

  // A pod not visited yet stands as it stood, so its visit restores it as of the start.
  lemma RestoredAsOfStart(h0: Host, s: Progress, s': Progress, done: set<PodKey>, k: PodKey, plan: map<PodKey, Launch>,
                          busy: set<int>)
    requires Inv(h0) && VisitInv(h0, s, done, plan) && NewIsNew(h0, s.host) && k in h0.pods && k in plan && k !in done
    requires Restored(s.host, s', k, plan[k], busy) && (RoomForAll(h0, busy) ==> RoomForAll(s.host, busy))
    ensures Restored(h0, s', k, plan[k], busy)
  {
    if Here(h0, k) && h0.pods[k].status != Evicted {
      if Alive(h0.procs, h0.pods[k]) {
        assert Serves(h0, k, h0.pods[k].pid);
      } else {
        StillGone(h0, s.host, k);
      }
      hide Inv, RoomForAll, Runs, OwnedServe, Brought, NewIsNew;
    }
  }

  // ----- the whole scan -----

  ghost predicate ScanInv(h0: Host, s: Progress, done: set<PodKey>, plan: map<PodKey, Launch>, busy: set<int>) {
    && VisitInv(h0, s, done, plan) && NewIsNew(h0, s.host)
    && (RoomForAll(h0, busy) ==> RoomForAll(s.host, busy))
    && (forall k :: k in done && k in plan ==> Restored(h0, s, k, plan[k], busy))
  }

  lemma PlanGives(h0: Host, plan: map<PodKey, Launch>, k: PodKey)
    requires PlanOk(h0, plan) && k in plan
    ensures !plan[k].Unrecorded? && LaunchOk(h0, plan[k])
  {
  }

  lemma FreshAtVisit(h0: Host, s: Progress, done: set<PodKey>, plan: map<PodKey, Launch>, k: PodKey)
    requires PlanOk(h0, plan) && VisitInv(h0, s, done, plan) && k in plan && k !in done
    ensures LaunchOk(s.host, plan[k]) && Inv(s.host)
  {
    hide Inv, PlanOk, LaunchOk, Grown;
    LaunchStillFresh(h0, s.host, done, plan, k);
  }

  lemma ScanStep(h0: Host, s: Progress, done: set<PodKey>, plan: map<PodKey, Launch>, k: PodKey, busy: set<int>)
    requires Inv(h0) && PlanOk(h0, plan) && ScanInv(h0, s, done, plan, busy) && k in plan && k !in done && k in h0.pods
    ensures ScanInv(h0, Visit(s, k, plan[k], busy), done + {k}, plan, busy)
  {
    hide Inv, PlanOk, LaunchOk, VisitInv, Visit, RoomForAll, Restored, NewIsNew;
    var s' := Visit(s, k, plan[k], busy);
    PlanGives(h0, plan, k);
    FreshAtVisit(h0, s, done, plan, k);
    VisitKeeps(h0, s, done, plan, k, busy);
    VisitBringsNew(h0, s, k, plan[k], busy);
    if RoomForAll(s.host, busy) { VisitKeepsRoom(s, k, plan[k], busy); }
    VisitRestores(s, k, plan[k], busy);
    RestoredAsOfStart(h0, s, s', done, k, plan, busy);
    EarlierStay(h0, s, done, plan, k, busy);
  }

  lemma EarlierStay(h0: Host, s: Progress, done: set<PodKey>, plan: map<PodKey, Launch>, k: PodKey, busy: set<int>)
    requires Inv(s.host) && k in plan && k !in done && LaunchOk(s.host, plan[k]) && !plan[k].Unrecorded?
    requires forall j :: j in done && j in plan ==> Restored(h0, s, j, plan[j], busy)
    ensures forall j :: j in done && j in plan ==> Restored(h0, Visit(s, k, plan[k], busy), j, plan[j], busy)
  {
    hide Inv, LaunchOk, Visit, Restored;
    VisitFrame(s, k, plan[k], busy);
    forall j | j in done && j in plan
      ensures Restored(h0, Visit(s, k, plan[k], busy), j, plan[j], busy)
    {
      RestoredStays(h0, s, Visit(s, k, plan[k], busy), k, j, plan[j], busy);
    }
  }

  lemma RestoredStays(h0: Host, s: Progress, s': Progress, k: PodKey, j: PodKey, launch: Launch, busy: set<int>)
    requires Restored(h0, s, j, launch, busy) && j != k && s.owned <= s'.owned && s'.host.node == s.host.node
    requires s'.host.pods.Keys == s.host.pods.Keys
    requires forall i :: i in s.host.pods && i != k ==> s'.host.pods[i] == s.host.pods[i]
    requires forall p :: p in s.host.procs ==> p in s'.host.procs && s'.host.procs[p] == s.host.procs[p]
    ensures Restored(h0, s', j, launch, busy)
  {
    hide RoomForAll;
    if Here(h0, j) && h0.pods[j].status != Evicted {
      if Alive(h0.procs, h0.pods[j]) {
        RunsOn(s, s', j, h0.pods[j].pid, h0.pods[j].pidStart);
      } else if Launchable(h0, j, busy) && launch.Launched? {
        RunsOn(s, s', j, launch.pid, launch.start);
      }
    }
  }

  lemma {:induction false} ScanRestores(h: Host, scan: seq<PodKey>, plan: map<PodKey, Launch>, busy: set<int>)
    requires Inv(h) && PlanOk(h, plan) && (forall k :: k in scan ==> k in plan && k in h.pods)
    requires forall i, j :: 0 <= i < j < |scan| ==> scan[i] != scan[j]
    ensures ScanInv(h, VisitAll(Progress(h, {}), scan, plan, busy), Elements(scan), plan, busy)
    decreases |scan|
  {
    hide Inv, PlanOk, Visit;
    if scan == [] {
      hide RoomForAll, Restored;
      VisitStarts(h, plan);
      hide VisitInv;
    } else {
      var n := |scan| - 1;
      ScanRestores(h, scan[..n], plan, busy);
      assert scan[n] !in Elements(scan[..n]) && Elements(scan[..n]) + {scan[n]} == Elements(scan);
      hide ScanInv;
      ScanStep(h, VisitAll(Progress(h, {}), scan[..n], plan, busy), Elements(scan[..n]), plan, scan[n], busy);
    }
  }

  // A completed startup leaves every pod of this node that is not Evicted and had its process Running with that same
  // process, and every one that had lost it Running with the process launched for it, provided the launch goes through,
  // the deployment exists, and there is a recorded port or room for all that need one.
  lemma StartupRestores(h: Host, scan: seq<PodKey>, plan: map<PodKey, Launch>, busy: set<int>, k: PodKey)
    requires Inv(h) && PlanOk(h, plan) && IsScan(scan, h.pods.Keys) && (forall j :: j in scan ==> j in plan)
    requires Here(h, k) && h.pods[k].status != Evicted && k in plan
    ensures var h' := Startup(h, scan, plan, busy);
            && (Alive(h.procs, h.pods[k]) ==> Serves(h', k, h.pods[k].pid) && h'.pods[k].status == Running)
            && (Launchable(h, k, busy) && plan[k].Launched? ==>
                  && Serves(h', k, plan[k].pid) && h'.pods[k].pidStart == plan[k].start && h'.pods[k].status == Running)
  {
    hide Inv, PlanOk, Visit, RoomForAll, NewIsNew;
    assert forall j :: j in scan ==> j in Elements(scan);
    ScanRestores(h, scan, plan, busy);
    var s := VisitAll(Progress(h, {}), scan, plan, busy);
    assert Restored(h, s, k, plan[k], busy);
    hide VisitAll;
    KillKeeps(s);
  }
}
