/** A deployment that was deleted: its pods are told to stop or removed, and in the end none is left
    (internal/controller/replica.go). */
module Deletion {
  import opened Collections
  import opened Schema
  import opened Store
  import opened Scheduler
  import opened Placement
  import opened Membership
  import Ledger
  import opened Replica
  import opened Consumer
  import opened ScaleDown
  import opened Recovery
  import opened Cluster
  import Repair
  import Health

  // ----- one reconcile -----

  // The pods on nodes that are not live.
  function Unreachable(s: State, keys: set<PodKey>): set<PodKey> {
    set k | k in keys && k in s.pods && s.pods[k].nodeId !in Live(s)
  }

  lemma {:induction false} RemovalKeepsTotals(s: State, alive: set<NodeId>, name: string, list: seq<Pod>)
    ensures var s' := RemoveAll(s, alive, name, list);
            s'.nodes.Keys == s.nodes.Keys && forall n :: n in s.nodes ==> s'.nodes[n].total == s.nodes[n].total
    decreases |list|
  {
    if list != [] {
      RemovalKeepsTotals(RemoveOne(s, alive, name, list[0]), alive, name, list[1..]);
    }
  }

  // What removing any list of a deployment's pods does: on a live node a pod keeps its record and has a stop queued; on
  // any other it is gone at once. The counters come down by exactly the requests of those that are gone, and nothing
  // else in the store changes but queues.
  lemma RemovalOutcome(s: State, name: string, list: seq<Pod>, all: set<PodKey>)
    requires Ledger.Consistent(s) && Represents(s.pods, list, all, name)
    ensures var s', gone := RemoveAll(s, Live(s), name, list), Unreachable(s, all);
            && s'.pods == s.pods - gone
            && (forall k :: k in all - gone ==> k in s.pods && StopQueued(s', s.pods[k].nodeId, k))
            && s'.nodes.Keys == s.nodes.Keys
            && (forall n :: n in s.nodes ==>
                  && s'.nodes[n].total == s.nodes[n].total
                  && s'.nodes[n].alloc.Plus(DemandOf(s.pods, gone, n)).Is(s.nodes[n].alloc))
            && s'.registry == s.registry && s'.leases == s.leases && s'.deployments == s.deployments
  {
    var s', gone := RemoveAll(s, Live(s), name, list), Unreachable(s, all);
    hide Ledger.Consistent, RemoveAll, Represents, StopQueued, DemandOf;
    RemoveAllKeeps(s, Live(s), name, list, all);
    RemovalKeepsTotals(s, Live(s), name, list);
    RemovalRecords(s, name, list, all);
    CountersReturn(s, s', gone);
  }

  lemma RemovalRecords(s: State, name: string, list: seq<Pod>, all: set<PodKey>)
    requires Represents(s.pods, list, all, name)
    ensures var s', gone := RemoveAll(s, Live(s), name, list), Unreachable(s, all);
            && gone <= s.pods.Keys && s'.pods == s.pods - gone
            && (forall k :: k in all - gone ==> k in s.pods && StopQueued(s', s.pods[k].nodeId, k))
            && s'.registry == s.registry && s'.leases == s.leases && s'.deployments == s.deployments
  {
    hide RemoveAll, Represents, StopQueued;
    RepresentsSubset(s.pods, list, all, name);
    RemoveAllEffect(s, Live(s), name, list, s.pods, all);
    RemoveAllReaches(s, Live(s), name, list, s.pods, all);
  }

  lemma CountersReturn(s: State, s': State, gone: set<PodKey>)
    requires Ledger.Consistent(s) && Ledger.Consistent(s') && gone <= s.pods.Keys && s'.pods == s.pods - gone
    ensures forall n :: n in s.nodes && n in s'.nodes ==>
              s'.nodes[n].alloc.Plus(DemandOf(s.pods, gone, n)).Is(s.nodes[n].alloc)
  {
    hide DemandOf, Ledger.Bound, Ledger.Sane;
    forall n | n in s.nodes && n in s'.nodes
      ensures s'.nodes[n].alloc.Plus(DemandOf(s.pods, gone, n)).Is(s.nodes[n].alloc)
    {
      assert Ledger.ExactAt(s, n) && Ledger.ExactAt(s', n);
      DemandPart(s.pods, s.pods.Keys, gone, n);
      assert s'.pods.Keys == s.pods.Keys - gone;
      DemandSame(s.pods, s'.pods, s'.pods.Keys, n);
    }
  }

  // Reconciling a name with no deployment behind it deals with every pod of that name and with no other, and reports
  // how many there were.
  lemma DeletedIsRemoved(s: State, name: string, scan: seq<PodKey>, ids: seq<PodId>, now: string)
    requires Ledger.Consistent(s) && name != "" && name !in s.deployments && ScansPods(s, name, scan)
    ensures var end, gone := Reconciled(s, name, scan, ids, now), Unreachable(s, PodsOf(s, name));
            && end.pods == s.pods - gone
            && (forall k :: k in PodsOf(s, name) - gone ==> k in s.pods && StopQueued(end, s.pods[k].nodeId, k))
            && end.nodes.Keys == s.nodes.Keys
            && (forall n :: n in s.nodes ==>
                  && end.nodes[n].total == s.nodes[n].total
                  && end.nodes[n].alloc.Plus(DemandOf(s.pods, gone, n)).Is(s.nodes[n].alloc))
            && OthersKept(s, end, name)
    ensures DeltaOf(s, name, scan, ids, now) == Delta(0, 0, 0, |PodsOf(s, name)|)
  {
    ConsistentKeyed(s);
    AllRepresented(s, name, scan);
    ScanLength(scan, PodsOf(s, name));
    RemovalOutcome(s, name, ReadAll(s, name, scan), PodsOf(s, name));
    hide Ledger.Consistent, Represents, RemoveAll, StopQueued, DemandOf;
  }

  // ----- until none is left -----

  // Every pod of the name that still has a record has a stop waiting on its node.
  ghost predicate Doomed(s: State, name: string) {
    name !in s.deployments && forall k :: k in PodsOf(s, name) ==> StopQueued(s, s.pods[k].nodeId, k)
  }

  // Pods of the name only go, none moves, and a stop for one that stays is still waiting.
  ghost predicate OnlyGoes(s: State, s': State, name: string) {
    && (name !in s.deployments ==> name !in s'.deployments)
    && (forall k :: k in PodsOf(s', name) ==> k in PodsOf(s, name) && s'.pods[k].nodeId == s.pods[k].nodeId)
    && (forall n, k :: StopQueued(s, n, k) && k in PodsOf(s', name) ==> StopQueued(s', n, k))
  }

  lemma DoomedStays(s: State, s': State, name: string)
    requires Doomed(s, name) && OnlyGoes(s, s', name)
    ensures Doomed(s', name)
  {
    hide StopQueued;
  }

  // Events that do not bring the deployment back or take commands away unhandled.
  ghost predicate Leaves(s: State, e: Repair.Event, name: string) {
    match e
    case Do(Single(Schedule(dep, _, _, _))) => dep.name != name
    case Do(Single(Churn(_, queues, deployments))) => queues == s.queues && name !in deployments
    case _ => true
  }

  lemma ScheduleOnlyGoes(s: State, dep: Deployment, id: PodId, now: string, fault: Fault, name: string)
    requires dep.name != name
    ensures OnlyGoes(s, ScheduleOneSpec(s, [], dep, id, now, fault).0, name)
  {
    hide ScheduleOneSpec, Best, CanPlace;
    PlaceOne(s, dep, id, now, fault);
  }

  lemma StepOnlyGoes(s: State, step: Ledger.Step, name: string)
    requires Repair.Possible(s, Repair.Do(Single(step))) && Leaves(s, Repair.Do(Single(step)), name)
    requires Repair.Sound(s)
    ensures OnlyGoes(s, Ledger.Next(s, step), name)
  {
    hide ScheduleOneSpec, Demand, Ledger.Freed, Specified;
    if step.Schedule? {
      ScheduleOnlyGoes(s, step.dep, step.id, step.now, step.fault, name);
    }
  }

  lemma DrainOnlyGoes(s: State, n: NodeId, r: Health.SpawnResult, name: string)
    ensures OnlyGoes(s, Drained(s, n, r), name)
  {
    hide StopQueued, Ledger.Freed;
    if Queue(s, n) != [] {
      DrainEffect(s, n, r);
    }
  }

  lemma {:induction false} BatchOnlyGoes(s: State, dep: Deployment, count: int, ids: seq<PodId>, now: string, name: string)
    requires |ids| >= count && dep.name != name
    ensures OnlyGoes(s, ScheduleMany(s, dep, count, ids, now).0, name)
    decreases if count < 0 then 0 else count
  {
    hide Best, CanPlace, StopQueued;
    if count > 0 && CanPlace(s, dep.request) {
      var s1 := PlaceOn(s, dep, ids[0], Best(s, dep.request), now);
      PlaceOnlyGoes(s, dep, ids[0], Best(s, dep.request), now, name);
      hide PlaceOn;
      BatchOnlyGoes(s1, dep, count - 1, ids[1..], now, name);
    }
  }

  lemma PlaceOnlyGoes(s: State, dep: Deployment, id: PodId, n: NodeId, now: string, name: string)
    requires dep.name != name
    ensures OnlyGoes(s, PlaceOn(s, dep, id, n, now), name)
  {
  }

  lemma RemovalOnlyGoes(s: State, alive: set<NodeId>, of: string, list: seq<Pod>, pods: map<PodKey, Pod>,
                        all: set<PodKey>, name: string)
    requires Represents(pods, list, all, of)
    ensures OnlyGoes(s, RemoveAll(s, alive, of, list), name)
  {
    hide StopQueued, RemoveAll, Represents;
    RemoveAllEffect(s, alive, of, list, pods, all);
  }

  lemma DropOnlyGoes(s: State, of: string, name: string)
    ensures OnlyGoes(s, s.(pods := s.pods - EvictedOf(s, of)), name)
  {
    SameQueues(s, s.(pods := s.pods - EvictedOf(s, of)));
  }

  lemma GoesOn(s: State, s1: State, s2: State, name: string)
    requires OnlyGoes(s, s1, name) && OnlyGoes(s1, s2, name)
    ensures OnlyGoes(s, s2, name)
  {
    hide StopQueued;
  }

  // A reconcile of any deployment.
  lemma ReconcileOnlyGoes(s: State, of: string, scan: seq<PodKey>, ids: seq<PodId>, now: string, name: string)
    requires Repair.Sound(s) && ReconcileOk(s, of, scan, ids) && name !in s.deployments
    ensures OnlyGoes(s, Reconciled(s, of, scan, ids, now), name)
  {
    hide OnlyGoes, RemoveAll, ScheduleMany, KeepLive, SelectVictims, Represents, LiveOf, StopQueued;
    assert Keyed(s);
    var pods, s1 := ReadAll(s, of, scan), s.(pods := s.pods - EvictedOf(s, of));
    AllRepresented(s, of, scan);
    LiveRepresented(s, of, scan);
    DropOnlyGoes(s, of, name);
    NoChange(s, name);
    if of !in s.deployments {
      RemovalOnlyGoes(s, Live(s), of, pods, s.pods, PodsOf(s, of), name);
    } else {
      var dep, live := s.deployments[of], KeepLive(pods);
      if |live| < dep.desired {
        BatchOnlyGoes(s1, dep, dep.desired - |live|, ids, now, name);
        GoesOn(s, s1, ScheduleMany(s1, dep, dep.desired - |live|, ids, now).0, name);
      } else if |live| > dep.desired {
        var chosen := SelectVictims(live, |live| - dep.desired);
        ChosenRepresented(s, of, live, |live| - dep.desired);
        RemovalOnlyGoes(s1, Live(s1), of, chosen, s1.pods, Elements(Keys(chosen)), name);
        GoesOn(s, s1, RemoveAll(s1, Live(s1), of, chosen), name);
      }
    }
  }

  lemma NoChange(s: State, name: string)
    ensures OnlyGoes(s, s, name)
  {
  }

  // A reconcile of the deleted deployment itself.
  lemma ReconcileDooms(s: State, name: string, scan: seq<PodKey>, ids: seq<PodId>, now: string)
    requires Repair.Sound(s) && ReconcileOk(s, name, scan, ids) && name != "" && name !in s.deployments
    ensures Doomed(Reconciled(s, name, scan, ids, now), name)
  {
    hide StopQueued, RemoveAll, Represents;
    assert Keyed(s);
    AllRepresented(s, name, scan);
    RemoveAllEffect(s, Live(s), name, ReadAll(s, name, scan), s.pods, PodsOf(s, name));
  }

  lemma EventOnlyGoes(s: State, e: Repair.Event, name: string)
    requires Repair.Sound(s) && Repair.Possible(s, e) && Leaves(s, e, name) && name !in s.deployments
    ensures OnlyGoes(s, Repair.Happened(s, e), name)
  {
    hide OnlyGoes, ReconcileOk, Reconciled, Ledger.Next, Ledger.Enabled, Drained, Repair.Sound, Specified;
    match e
    case Drift(nodes) => DriftOnlyGoes(s, nodes, name);
    case Do(Single(step)) => StepOnlyGoes(s, step, name);
    case Do(Sweep) => SweepOnlyGoes(s, name);
    case Do(Reconcile(of, scan, ids, now)) => ReconcileOnlyGoes(s, of, scan, ids, now, name);
    case Do(Drain(n, r)) => DrainOnlyGoes(s, n, r, name);
  }

  lemma DriftOnlyGoes(s: State, nodes: map<NodeId, Capacity>, name: string)
    ensures OnlyGoes(s, s.(nodes := nodes), name)
  {
    SameQueues(s, s.(nodes := nodes));
  }

  lemma SweepOnlyGoes(s: State, name: string)
    ensures OnlyGoes(s, Swept(s), name)
  {
    SameQueues(s, Swept(s));
  }

  ghost predicate AllLeave(s: State, events: seq<Repair.Event>, name: string)
    requires Repair.IsHistory(s, events)
    decreases |events|
  {
    events != [] ==> Leaves(s, events[0], name) && AllLeave(Repair.Happened(s, events[0]), events[1..], name)
  }

  ghost predicate Reconciles(events: seq<Repair.Event>, name: string) {
    exists i :: 0 <= i < |events| && events[i].Do? && events[i].op.Reconcile? && events[i].op.name == name
  }

  lemma EventDooms(s: State, e: Repair.Event, name: string)
    requires Repair.Sound(s) && Repair.Possible(s, e) && name != "" && name !in s.deployments
    requires e.Do? && e.op.Reconcile? && e.op.name == name
    ensures Doomed(Repair.Happened(s, e), name)
  {
    ReconcileDooms(s, name, e.op.scan, e.op.ids, e.op.now);
  }

  lemma {:induction false} DoomedOverHistories(s: State, events: seq<Repair.Event>, name: string, doomed: bool)
    requires Repair.Sound(s) && name != "" && name !in s.deployments && (doomed ==> Doomed(s, name))
    requires Repair.IsHistory(s, events) && AllLeave(s, events, name)
    ensures var end := Repair.Outcome(s, events);
            name !in end.deployments && (doomed || Reconciles(events, name) ==> Doomed(end, name))
    decreases |events|
  {
    hide Repair.Sound, Repair.Possible, Repair.Happened, Doomed, Leaves;
    if events != [] {
      var e, s' := events[0], Repair.Happened(s, events[0]);
      var now := e.Do? && e.op.Reconcile? && e.op.name == name;
      Repair.EventSound(s, e);
      EventOnlyGoes(s, e, name);
      if now {
        EventDooms(s, e, name);
      } else if doomed {
        DoomedStays(s, s', name);
      }
      DoomedOverHistories(s', events[1..], name, doomed || now);
      if Reconciles(events, name) && !now {
        var i :| 0 <= i < |events| && events[i].Do? && events[i].op.Reconcile? && events[i].op.name == name;
        assert events[1..][i - 1] == events[i];
      }
    }
  }

  // Over every history after the deletion, with sweeps, reconciles of anything, drains, drifting counters and agents
  // writing in any order: once a reconcile of the name has run and no stop for it is left in any queue, no pod of it is
  // left either.
  lemma DeletionCompletes(s: State, events: seq<Repair.Event>, name: string)
    requires Repair.Sound(s) && name != "" && name !in s.deployments
    requires Repair.IsHistory(s, events) && AllLeave(s, events, name) && Reconciles(events, name)
    ensures NoStopsFor(Repair.Outcome(s, events), name) ==> PodsOf(Repair.Outcome(s, events), name) == {}
  {
    DoomedOverHistories(s, events, name, false);
  }
}
