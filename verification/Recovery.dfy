/** Failure recovery: a node sweep followed by one reconcile restores a deployment, whatever happened before. */
module Recovery {
  import opened Collections
  import opened Schema
  import opened Store
  import opened CapacityScripts
  import opened Scheduler
  import opened Placement
  import opened Membership
  import opened Ledger
  import opened Replica
  import opened ScaleDown

  // ----- what a batch of placements leaves -----

  // Pod ids are random; two never coincide within a deployment.
  ghost predicate FreshIds(s: State, name: string, ids: seq<PodId>) {
    && (forall i :: 0 <= i < |ids| ==> PodKey(name, ids[i]) !in s.pods)
    && (forall i, j :: 0 <= i < j < |ids| ==> ids[i] != ids[j])
  }

  function NewKeys(name: string, ids: seq<PodId>): set<PodKey> { set i | 0 <= i < |ids| :: PodKey(name, ids[i]) }

  // The old records untouched, one new record per id, each on a live node.
  ghost predicate PlacedBatch(s: State, s': State, name: string, ids: seq<PodId>) {
    && s'.registry == s.registry && s'.leases == s.leases && s'.deployments == s.deployments
    && s'.pods.Keys == s.pods.Keys + NewKeys(name, ids)
    && (forall k :: k in s.pods ==> s'.pods[k] == s.pods[k])
    && (forall k :: k in NewKeys(name, ids) ==> s'.pods[k].status == Pending && s'.pods[k].nodeId in Live(s))
  }

  lemma NewKeysCons(name: string, ids: seq<PodId>)
    requires ids != []
    ensures NewKeys(name, ids) == {PodKey(name, ids[0])} + NewKeys(name, ids[1..])
  {
    forall k | k in NewKeys(name, ids)
      ensures k == PodKey(name, ids[0]) || k in NewKeys(name, ids[1..])
    {
      var i :| 0 <= i < |ids| && k == PodKey(name, ids[i]);
      assert i > 0 ==> k == PodKey(name, ids[1..][i - 1]);
    }
    forall k | k in NewKeys(name, ids[1..])
      ensures k in NewKeys(name, ids)
    {
      var i :| 0 <= i < |ids[1..]| && k == PodKey(name, ids[1..][i]);
      assert k == PodKey(name, ids[i + 1]);
    }
  }

  lemma {:induction false} BatchPlaced(s: State, dep: Deployment, count: int, ids: seq<PodId>, now: string)
    requires Consistent(s) && UNIT.Leq(dep.request) && 0 <= count <= |ids| && FreshIds(s, dep.name, ids)
    ensures Consistent(ScheduleMany(s, dep, count, ids, now).0)
    ensures PlacedBatch(s, ScheduleMany(s, dep, count, ids, now).0, dep.name, ScheduleMany(s, dep, count, ids, now).1)
    decreases count
  {
    hide Consistent, Best, CanPlace, Reserved, PlacedBatch;
    if count == 0 || !CanPlace(s, dep.request) {
      NothingPlaced(s, dep.name);
    } else {
      BestIsTightest(s, dep.request);
      var n := Best(s, dep.request);
      var s1 := PlaceOn(s, dep, ids[0], n, now);
      PlacementKeeps(s, dep, ids[0], n, now, true);
      FreshTail(s, dep.name, ids, s1);
      BatchPlaced(s1, dep, count - 1, ids[1..], now);
      var rest := ScheduleMany(s1, dep, count - 1, ids[1..], now);
      BatchCons(s, dep, ids[0], n, now, rest.0, rest.1);
    }
  }

  lemma NothingPlaced(s: State, name: string)
    ensures PlacedBatch(s, s, name, [])
  {
  }

  lemma FreshTail(s: State, name: string, ids: seq<PodId>, s1: State)
    requires FreshIds(s, name, ids) && ids != [] && s1.pods.Keys == s.pods.Keys + {PodKey(name, ids[0])}
    ensures FreshIds(s1, name, ids[1..])
  {
  }

  lemma PlaceOnEffect(s: State, dep: Deployment, id: PodId, n: NodeId, now: string)
    ensures var s', k := PlaceOn(s, dep, id, n, now), PodKey(dep.name, id);
            && s'.registry == s.registry && s'.leases == s.leases && s'.deployments == s.deployments
            && s'.pods.Keys == s.pods.Keys + {k} && s'.pods[k].status == Pending && s'.pods[k].nodeId == n
            && (forall j :: j in s.pods && j != k ==> s'.pods[j] == s.pods[j])
  {
    hide Reserved;
  }

  lemma BatchCons(s: State, dep: Deployment, id: PodId, n: NodeId, now: string, end: State, rest: seq<PodId>)
    requires n in Live(s) && PodKey(dep.name, id) !in s.pods
    requires PlacedBatch(PlaceOn(s, dep, id, n, now), end, dep.name, rest)
    ensures PlacedBatch(s, end, dep.name, [id] + rest)
  {
    PlaceOnEffect(s, dep, id, n, now);
    NewKeysCons(dep.name, [id] + rest);
    assert ([id] + rest)[1..] == rest;
    hide PlaceOn, NewKeys;
  }

  ghost predicate StartQueued(s: State, n: NodeId, k: PodKey) { StartPod(k) in Queue(s, n) }

  lemma PlaceOnDispatches(s: State, dep: Deployment, id: PodId, n: NodeId, now: string)
    ensures var s', k := PlaceOn(s, dep, id, n, now), PodKey(dep.name, id);
            && Dispatched(s', dep, id, now)
            && (forall m, j :: StartQueued(s, m, j) ==> StartQueued(s', m, j))
            && (forall j :: j in s.pods && j != k ==> j in s'.pods && s'.pods[j] == s.pods[j])
  {
    hide Reserved;
  }

  // Every replica of a batch is recorded as the deployment asks, on some node, and that node is told to start it.
  lemma {:induction false} BatchDispatched(s: State, dep: Deployment, count: int, ids: seq<PodId>, now: string)
    requires 0 <= count <= |ids| && FreshIds(s, dep.name, ids)
    ensures var (end, created) := ScheduleMany(s, dep, count, ids, now);
            && (forall i :: 0 <= i < |created| ==> Dispatched(end, dep, created[i], now))
            && (forall m, j :: StartQueued(s, m, j) ==> StartQueued(end, m, j))
            && (forall j :: j in s.pods ==> j in end.pods && end.pods[j] == s.pods[j])
    decreases count
  {
    hide Best, CanPlace, StartQueued;
    if count > 0 && CanPlace(s, dep.request) {
      var n := Best(s, dep.request);
      var s1 := PlaceOn(s, dep, ids[0], n, now);
      PlaceOnDispatches(s, dep, ids[0], n, now);
      PlaceOnEffect(s, dep, ids[0], n, now);
      FreshTail(s, dep.name, ids, s1);
      hide PlaceOn, FreshIds;
      BatchDispatched(s1, dep, count - 1, ids[1..], now);
      var (end, created) := ScheduleMany(s, dep, count, ids, now);
      assert created[1..] == ScheduleMany(s1, dep, count - 1, ids[1..], now).1;
      forall i | 0 <= i < |created|
        ensures Dispatched(end, dep, created[i], now)
      {
        if i > 0 { assert created[1..][i - 1] == created[i]; }
      }
    }
  }

  ghost predicate Dispatched(s: State, dep: Deployment, id: PodId, now: string) {
    && var k := PodKey(dep.name, id);
       && k in s.pods && StartQueued(s, s.pods[k].nodeId, k)
       && var p := s.pods[k];
          && p.deployment == dep.name && p.podId == id && p.status == Pending && p.request == dep.request
          && p.createdAt == now && p.pid == 0 && p.pidStart == 0 && p.hostPort == 0
          && p.restartCount == 0 && p.failures == 0 && p.backoffSeconds == 0 && p.lastRestartAt == 0
  }

  lemma {:induction false} NewKeysSize(name: string, ids: seq<PodId>)
    requires forall i, j :: 0 <= i < j < |ids| ==> ids[i] != ids[j]
    ensures |NewKeys(name, ids)| == |ids|
    decreases |ids|
  {
    if ids != [] {
      NewKeysCons(name, ids);
      NewKeysSize(name, ids[1..]);
    }
  }

  // ----- the theorem -----

  // Every pod of the deployment that still counts sits on a node with a lease.
  lemma SurvivorsAreLeased(s: State, name: string)
    requires Consistent(s)
    ensures Leased(Swept(s), name)
  {
  }

  lemma DropEvictedConsistent(s: State, keys: set<PodKey>)
    requires Consistent(s) && forall k :: k in keys ==> k in s.pods && s.pods[k].status == Evicted
    ensures Consistent(s.(pods := s.pods - keys))
    decreases |keys|
  {
    hide Consistent;
    if keys == {} {
      assert s.pods - keys == s.pods;
    } else {
      var k :| k in keys;
      DeleteEvictedKeeps(s, k);
      var s1 := s.(pods := s.pods - {k});
      DropEvictedConsistent(s1, keys - {k});
      assert s1.pods - (keys - {k}) == s.pods - keys;
    }
  }

  // The deployment is at strength: as many pods as wanted, none Evicted, all on registered nodes with a lease.
  ghost predicate Healthy(s: State, name: string) {
    && name in s.deployments && |LiveOf(s, name)| == s.deployments[name].desired
    && EvictedOf(s, name) == {}
    && (forall k :: k in PodsOf(s, name) ==> s.pods[k].nodeId in Live(s))
  }

  // Every pod of the deployment that still counts is on a live node.
  ghost predicate Leased(s: State, name: string) {
    forall k :: k in LiveOf(s, name) ==> s.pods[k].nodeId in Live(s)
  }

  // No more pods than wanted, and the cluster has room for those that are missing.
  ghost predicate Restorable(s: State, name: string, scan: seq<PodKey>, ids: seq<PodId>) {
    && name != "" && name in s.deployments && s.deployments[name].name == name && UNIT.Leq(s.deployments[name].request)
    && ScansPods(s, name, scan) && FreshIds(s, name, ids)
    && 0 <= Missing(s, name) <= |ids|
    && Missing(s, name) <= TotalSlots(s, s.deployments[name].request)
  }

  function Missing(s: State, name: string): int
    requires name in s.deployments
  {
    s.deployments[name].desired - |LiveOf(s, name)|
  }

  // Nothing but this deployment's pods is touched.
  ghost predicate OthersKept(s: State, s': State, name: string) {
    && s'.registry == s.registry && s'.leases == s.leases && s'.deployments == s.deployments
    && (forall k: PodKey :: k.deployment != name ==>
          (k in s'.pods <==> k in s.pods) && (k in s.pods ==> s'.pods[k] == s.pods[k]))
  }

  // Live pods keep their records as they are.
  ghost predicate LiveKept(s: State, s': State, name: string) {
    forall k :: k in LiveOf(s, name) ==> k in s'.pods && s'.pods[k] == s.pods[k]
  }

  // One reconcile brings the deployment to strength and keeps every other one as it is.
  lemma ReconcileRestores(s: State, name: string, scan: seq<PodKey>, ids: seq<PodId>, now: string)
    requires Consistent(s) && Leased(s, name) && Restorable(s, name, scan, ids)
    ensures |KeepLive(ReadAll(s, name, scan))| == |LiveOf(s, name)|
    ensures var end := Reconciled(s, name, scan, ids, now);
            Healthy(end, name) && LiveKept(s, end, name) && OthersKept(s, end, name) && Consistent(end)
  {
    hide Consistent, ScheduleMany, KeepLive, PlacedBatch, TotalSlots, Healthy, OthersKept, LiveOf, LiveKept;
    var dep, missing := s.deployments[name], Missing(s, name);
    ConsistentKeyed(s);
    LiveRepresented(s, name, scan);
    var s1 := s.(pods := s.pods - EvictedOf(s, name));
    DropEvictedConsistent(s, EvictedOf(s, name));
    BatchPlaced(s1, dep, missing, ids, now);
    SameSlots(s, s1, dep.request);
    PlacementIsMaximal(s1, dep, missing, ids, now);
    NewKeysSize(name, ids[..missing]);
    BatchCounts(s, s1, ScheduleMany(s1, dep, missing, ids, now).0, name, ids[..missing]);
    if missing == 0 {
      NoneScheduled(s1, dep, 0, ids, now);
    }
  }

  // The pods of a deployment that count and sit on a node with a lease.
  function Surviving(s: State, name: string): set<PodKey> {
    set k | k in LiveOf(s, name) && s.pods[k].nodeId in s.leases
  }

  // What a sweep leaves of a deployment, and of the room in the cluster.
  lemma SweepLeaves(s: State, name: string, req: Vec)
    requires Consistent(s)
    ensures LiveOf(Swept(s), name) == Surviving(s, name) && PodsOf(Swept(s), name) == PodsOf(s, name)
    ensures forall k :: k in s.pods && s.pods[k].nodeId in s.leases ==> Swept(s).pods[k] == s.pods[k]
    ensures Live(Swept(s)) == Live(s) && TotalSlots(Swept(s), req) == TotalSlots(s, req)
  {
    hide TotalSlots, LedgerExact;
    SweepKeepsSlots(s, req);
    forall k | k in s.pods
      ensures k in Swept(s).pods && s.pods[k].nodeId in s.leases ==> Swept(s).pods[k] == s.pods[k]
      ensures s.pods[k].nodeId !in s.leases ==> Swept(s).pods[k].status == Evicted
    {
      SweepMeaning(s, s.pods[k].nodeId);
    }
    SweepMeaning(s, "");
    hide Swept;
  }

  lemma SweepKeepsSlots(s: State, req: Vec)
    ensures Live(Swept(s)) == Live(s) && TotalSlots(Swept(s), req) == TotalSlots(s, req)
  {
    assert Live(Swept(s)) == Live(s);
    forall n | n in Live(s)
      ensures SlotsAt(s, req)(n) == SlotsAt(Swept(s), req)(n)
    {
      SweepMeaning(s, n);
    }
    SumSame(Live(s), SlotsAt(s, req), SlotsAt(Swept(s), req));
  }

  // A node sweep followed by one reconcile, from any consistent state, when no more pods than wanted sit on leased
  // nodes and the leased nodes have room for the rest. No pod on a leased node is touched, of this deployment or another.
  lemma FailureRecovery(s: State, name: string, scan: seq<PodKey>, ids: seq<PodId>, now: string)
    requires Consistent(s) && name != "" && name in s.deployments
    requires s.deployments[name].name == name && UNIT.Leq(s.deployments[name].request)
    requires ScansPods(s, name, scan) && FreshIds(s, name, ids)
    requires var missing := s.deployments[name].desired - |Surviving(s, name)|;
             0 <= missing <= |ids| && missing <= TotalSlots(s, s.deployments[name].request)
    ensures ScansPods(Swept(s), name, scan) && |KeepLive(ReadAll(Swept(s), name, scan))| == |LiveOf(Swept(s), name)|
    ensures |LiveOf(Swept(s), name)| == |Surviving(s, name)|
    ensures var end := Reconciled(Swept(s), name, scan, ids, now);
            && Healthy(end, name) && Consistent(end) && Live(end) == Live(s)
            && (forall k :: k in s.pods && s.pods[k].nodeId in s.leases && s.pods[k].status != Evicted ==>
                  k in end.pods && end.pods[k] == s.pods[k])
  {
    EvictionKeeps(s, Dead(s));
    SurvivorsAreLeased(s, name);
    RestorableAfterSweep(s, name, scan, ids);
    hide Consistent, TotalSlots, Healthy, Leased, Restorable, LiveKept, OthersKept;
    ReconcileRestores(Swept(s), name, scan, ids, now);
    LeasedPodsKept(s, Reconciled(Swept(s), name, scan, ids, now), name);
  }

  lemma RestorableAfterSweep(s: State, name: string, scan: seq<PodKey>, ids: seq<PodId>)
    requires Consistent(s) && name != "" && name in s.deployments
    requires s.deployments[name].name == name && UNIT.Leq(s.deployments[name].request)
    requires ScansPods(s, name, scan) && FreshIds(s, name, ids)
    requires var missing := s.deployments[name].desired - |Surviving(s, name)|;
             0 <= missing <= |ids| && missing <= TotalSlots(s, s.deployments[name].request)
    ensures Restorable(Swept(s), name, scan, ids) && |LiveOf(Swept(s), name)| == |Surviving(s, name)|
  {
    SweepLeaves(s, name, s.deployments[name].request);
    hide Consistent, TotalSlots, LiveOf, PodsOf;
  }

  lemma LeasedPodsKept(s: State, end: State, name: string)
    requires Consistent(s) && LiveKept(Swept(s), end, name) && OthersKept(Swept(s), end, name)
    ensures Live(end) == Live(s)
    ensures forall k :: k in s.pods && s.pods[k].nodeId in s.leases && s.pods[k].status != Evicted ==>
              k in end.pods && end.pods[k] == s.pods[k]
  {
    SweepLeaves(s, name, UNIT);
    hide Consistent, TotalSlots;
    forall k | k in s.pods && s.pods[k].nodeId in s.leases && s.pods[k].status != Evicted
      ensures k in end.pods && end.pods[k] == s.pods[k]
    {
      if k.deployment == name { assert k in Surviving(s, name); }
    }
  }

  lemma ConsistentKeyed(s: State)
    requires Consistent(s)
    ensures Keyed(s)
  {
  }

  lemma SameSlots(s: State, s': State, req: Vec)
    requires s'.nodes == s.nodes && s'.registry == s.registry && s'.leases == s.leases
    ensures TotalSlots(s', req) == TotalSlots(s, req)
  {
    SumSame(Live(s), SlotsAt(s, req), SlotsAt(s', req));
  }

  // Which keys are left once the Evicted records are dropped and a batch is placed.
  lemma BatchKeys(s1: State, s2: State, end: State, name: string, ids: seq<PodId>)
    requires s2 == s1.(pods := s1.pods - EvictedOf(s1, name)) && PlacedBatch(s2, end, name, ids)
    requires FreshIds(s2, name, ids)
    ensures PodsOf(end, name) == LiveOf(s1, name) + NewKeys(name, ids) && LiveOf(s1, name) !! NewKeys(name, ids)
    ensures LiveKept(s1, end, name) && OthersKept(s1, end, name)
  {
  }

  lemma BatchOnLive(s: State, end: State, name: string, ids: seq<PodId>)
    requires PlacedBatch(s, end, name, ids)
    ensures end.registry == s.registry && end.leases == s.leases && end.deployments == s.deployments
    ensures forall k :: k in NewKeys(name, ids) ==>
              k in end.pods && end.pods[k].status == Pending && end.pods[k].nodeId in Live(s)
  {
  }

  lemma BatchCounts(s1: State, s2: State, end: State, name: string, ids: seq<PodId>)
    requires s2 == s1.(pods := s1.pods - EvictedOf(s1, name)) && PlacedBatch(s2, end, name, ids)
    requires FreshIds(s2, name, ids) && |NewKeys(name, ids)| == |ids|
    requires name in s1.deployments && |LiveOf(s1, name)| + |ids| == s1.deployments[name].desired
    requires Leased(s1, name)
    ensures Healthy(end, name) && LiveKept(s1, end, name) && OthersKept(s1, end, name)
  {
    hide PlacedBatch, FreshIds, NewKeys, Healthy, Leased, LiveOf, PodsOf, OthersKept, LiveKept;
    BatchKeys(s1, s2, end, name, ids);
    BatchOnLive(s2, end, name, ids);
    AllCount(s1, end, name, NewKeys(name, ids));
  }

  // Survivors and newcomers, all on live nodes and none Evicted, make the wanted number.
  lemma AllCount(s: State, end: State, name: string, added: set<PodKey>)
    requires end.registry == s.registry && end.leases == s.leases && end.deployments == s.deployments
    requires PodsOf(end, name) == LiveOf(s, name) + added && LiveOf(s, name) !! added
    requires LiveKept(s, end, name)
    requires forall k :: k in added ==> k in end.pods && end.pods[k].status == Pending && end.pods[k].nodeId in Live(s)
    requires name in s.deployments && |LiveOf(s, name)| + |added| == s.deployments[name].desired && Leased(s, name)
    ensures Healthy(end, name)
  {
    forall k | k in PodsOf(end, name)
      ensures end.pods[k].status != Evicted && end.pods[k].nodeId in Live(end)
    {
      assert k in LiveOf(s, name) || k in added;
    }
    assert LiveOf(end, name) == PodsOf(end, name);
    assert EvictedOf(end, name) == {};
  }
}
