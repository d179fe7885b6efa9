/** Runs without any discipline: leftover starts reach Evicted pods and counters drift in any way at all. What is never
    lost, and how registration, a sweep and a full reconcile put the rest right (internal/node/node.go). */
module Repair {
  import opened Schema
  import opened Store
  import opened CapacityScripts
  import opened Scheduler
  import opened Placement
  import opened Membership
  import Ledger
  import opened Replica
  import opened Consumer
  import opened Cluster
  import Fleet

  /** Anything the control plane does, or counters ending up with any value: a crash between release and delete, a lost
      rollback, an eviction racing a reservation. */
  datatype Event = Do(op: Op) | Drift(nodes: map<NodeId, Capacity>)

  ghost predicate Possible(s: State, e: Event) {
    match e
    case Drift(nodes) => nodes.Keys == s.nodes.Keys
    case Do(Single(step)) => Ledger.Enabled(s, step) && Specified(Ledger.Next(s, step))
    case Do(Sweep) => true
    case Do(Reconcile(name, scan, ids, _)) => ReconcileOk(s, name, scan, ids)
    case Do(Drain(_, _)) => true
  }

  ghost function Happened(s: State, e: Event): State
    requires Possible(s, e)
  {
    match e
    case Drift(nodes) => s.(nodes := nodes)
    case Do(Single(step)) => Ledger.Next(s, step)
    case Do(Sweep) => Swept(s)
    case Do(Reconcile(name, scan, ids, now)) => Reconciled(s, name, scan, ids, now)
    case Do(Drain(n, spawn)) => Drained(s, n, spawn)
  }

  ghost predicate IsHistory(s: State, events: seq<Event>)
    decreases |events|
  {
    events == [] || (Possible(s, events[0]) && IsHistory(Happened(s, events[0]), events[1..]))
  }

  ghost function Outcome(s: State, events: seq<Event>): State
    requires IsHistory(s, events)
    decreases |events|
  {
    if events == [] then s else Outcome(Happened(s, events[0]), events[1..])
  }

  // ----- what is never lost -----

  ghost predicate Sound(s: State) { Ledger.Sane(s) && Specified(s) }

  // Records only go, and no capacity hash comes or goes.
  ghost predicate Shrinks(s: State, s': State) {
    && s'.nodes.Keys == s.nodes.Keys && s'.deployments == s.deployments && s'.pods.Keys <= s.pods.Keys
    && (forall k :: k in s'.pods ==> s'.pods[k] == s.pods[k])
  }

  lemma {:induction false} RemoveAllShrinks(s: State, alive: set<NodeId>, name: string, list: seq<Pod>)
    ensures Shrinks(s, RemoveAll(s, alive, name, list))
    decreases |list|
  {
    if list != [] {
      var s1 := RemoveOne(s, alive, name, list[0]);
      assert Shrinks(s, s1);
      RemoveAllShrinks(s1, alive, name, list[1..]);
    }
  }

  lemma BindSound(s: State, nodes: map<NodeId, Capacity>, dep: Deployment, id: PodId, n: NodeId, now: string, sent: bool)
    requires Sound(s) && nodes.Keys == s.nodes.Keys && UNIT.Leq(dep.request)
    ensures Sound(Bind(s.(nodes := nodes), dep, id, n, now, sent))
  {
  }

  lemma {:induction false} BatchSound(s: State, dep: Deployment, count: int, ids: seq<PodId>, now: string)
    requires Sound(s) && UNIT.Leq(dep.request) && |ids| >= count
    ensures Sound(ScheduleMany(s, dep, count, ids, now).0)
    decreases if count < 0 then 0 else count
  {
    hide Best, CanPlace, Sound;
    if count > 0 && CanPlace(s, dep.request) {
      var n := Best(s, dep.request);
      BindSound(s, Reserved(s.nodes, n, dep.request), dep, ids[0], n, now, true);
      BatchSound(PlaceOn(s, dep, ids[0], n, now), dep, count - 1, ids[1..], now);
    }
  }

  lemma ShrinksSound(s: State, s': State)
    requires Sound(s) && Shrinks(s, s')
    ensures Sound(s')
  {
  }

  lemma RequestsReal(s: State, name: string)
    requires Sound(s) && name in s.deployments
    ensures UNIT.Leq(s.deployments[name].request)
  {
  }

  lemma ReconcileSound(s: State, name: string, scan: seq<PodKey>, ids: seq<PodId>, now: string)
    requires Sound(s) && ReconcileOk(s, name, scan, ids)
    ensures Sound(Reconciled(s, name, scan, ids, now))
  {
    hide Sound, RemoveAll, ScheduleMany, KeepLive, SelectVictims;
    var pods, s1 := ReadAll(s, name, scan), s.(pods := s.pods - EvictedOf(s, name));
    assert Shrinks(s, s1);
    hide Shrinks;
    ShrinksSound(s, s1);
    if name !in s.deployments {
      RemoveAllShrinks(s, Live(s), name, pods);
      ShrinksSound(s, RemoveAll(s, Live(s), name, pods));
    } else {
      var dep, live := s.deployments[name], KeepLive(pods);
      RequestsReal(s, name);
      if |live| < dep.desired {
        BatchSound(s1, dep, dep.desired - |live|, ids, now);
      } else if |live| > dep.desired {
        var chosen := SelectVictims(live, |live| - dep.desired);
        RemoveAllShrinks(s1, Live(s1), name, chosen);
        ShrinksSound(s1, RemoveAll(s1, Live(s1), name, chosen));
      }
    }
  }

  lemma ScheduleSound(s: State, dep: Deployment, id: PodId, now: string, fault: Fault)
    requires Sound(s) && UNIT.Leq(dep.request)
    ensures Sound(ScheduleOneSpec(s, [], dep, id, now, fault).0)
  {
    hide ScheduleOneSpec, Best, CanPlace;
    PlaceOne(s, dep, id, now, fault);
    if CanPlace(s, dep.request) {
      BindSound(s, Reserved(s.nodes, Best(s, dep.request), dep.request), dep, id, Best(s, dep.request), now,
                !fault.DispatchFails?);
    }
  }

  lemma StepSound(s: State, step: Ledger.Step)
    requires Sound(s) && Ledger.Enabled(s, step) && Specified(Ledger.Next(s, step))
    ensures Sound(Ledger.Next(s, step))
  {
    hide ScheduleOneSpec, Demand;
    if step.Schedule? {
      ScheduleSound(s, step.dep, step.id, step.now, step.fault);
    }
  }

  lemma EventSound(s: State, e: Event)
    requires Sound(s) && Possible(s, e)
    ensures Sound(Happened(s, e))
  {
    hide ReconcileOk, Reconciled, Ledger.Next, Ledger.Enabled;
    match e
    case Drift(nodes) =>
    case Do(Single(step)) => StepSound(s, step);
    case Do(Sweep) =>
    case Do(Reconcile(name, scan, ids, now)) => ReconcileSound(s, name, scan, ids, now);
    case Do(Drain(n, spawn)) =>
  }

  lemma {:induction false} SoundOverHistories(s: State, events: seq<Event>)
    requires Sound(s) && IsHistory(s, events)
    ensures Sound(Outcome(s, events))
    decreases |events|
  {
    hide Sound, Possible, Happened;
    if events != [] {
      EventSound(s, events[0]);
      SoundOverHistories(Happened(s, events[0]), events[1..]);
    }
  }

  // ----- putting it right -----

  ghost predicate Joins(joining: seq<(NodeId, Vec)>, n: NodeId) { exists i :: 0 <= i < |joining| && joining[i].0 == n }

  // Every node whose counter is off registers again, and so does every node that holds a pod without being a member.
  ghost predicate Rejoin(s: State, joining: seq<(NodeId, Vec)>) {
    && (forall i :: 0 <= i < |joining| ==> joining[i].0 != "")
    && (forall n :: n in s.nodes && !Ledger.ExactAt(s, n) ==> Joins(joining, n))
    && (forall k :: k in s.pods && ConsumesCapacity(s.pods[k].status) ==>
          Joins(joining, s.pods[k].nodeId) || (s.pods[k].nodeId in s.nodes && s.pods[k].nodeId in s.registry))
  }

  lemma {:induction false} RegisterAllAdds(s: State, joining: seq<(NodeId, Vec)>)
    ensures var s' := Ledger.RegisterAll(s, joining);
            && s'.pods == s.pods && s'.deployments == s.deployments && s'.leases == s.leases && s'.queues == s.queues
            && s.nodes.Keys <= s'.nodes.Keys && s.registry <= s'.registry
            && (forall n :: n in s'.nodes ==> n in s.nodes || Joins(joining, n))
            && (forall n :: Joins(joining, n) ==> n in s'.nodes && n in s'.registry)
    decreases |joining|
  {
    hide Demand;
    if joining != [] {
      RegisterAllAdds(Registered(s, joining[0].0, joining[0].1), joining[1..]);
      forall n
        ensures Joins(joining, n) <==> n == joining[0].0 || Joins(joining[1..], n)
      {
        JoinsSplit(joining, n);
      }
    }
  }

  lemma JoinsSplit(joining: seq<(NodeId, Vec)>, n: NodeId)
    requires joining != []
    ensures Joins(joining, n) <==> n == joining[0].0 || Joins(joining[1..], n)
  {
    if Joins(joining, n) && n != joining[0].0 {
      var i :| 0 <= i < |joining| && joining[i].0 == n;
      assert joining[1..][i - 1].0 == n;
    }
    if Joins(joining[1..], n) {
      var i :| 0 <= i < |joining[1..]| && joining[1..][i].0 == n;
      assert joining[i + 1].0 == n;
    }
  }

  // Then the whole cluster is consistent again.
  lemma RejoiningRepairs(s: State, joining: seq<(NodeId, Vec)>)
    requires Sound(s) && Rejoin(s, joining)
    ensures Ledger.Consistent(Ledger.RegisterAll(s, joining)) && Specified(Ledger.RegisterAll(s, joining))
  {
    RegisterAllAdds(s, joining);
    forall n | n in s.nodes && !Ledger.ExactAt(s, n)
      ensures exists i :: 0 <= i < |joining| && joining[i].0 == n
    {
      assert Joins(joining, n);
    }
    Ledger.RegisterRepairs(s, joining);
    hide Ledger.LedgerExact, Ledger.RegisterAll, Ledger.ExactAt;
  }

  // A state some history from an empty store ends in.
  ghost predicate Reached(s: State, events: seq<Event>) {
    IsHistory(EmptyStore(), events) && Outcome(EmptyStore(), events) == s
  }

  // From an empty store, after any history at all: once those nodes have registered again, a sweep and a full reconcile
  // heal every deployment visited and leave every ledger exact, given room on the leased nodes.
  lemma SelfHealingAfterAnything(s: State, events: seq<Event>, joining: seq<(NodeId, Vec)>, joined: State,
                                 turns: seq<Fleet.Turn>, now: string, large: Vec)
    requires Reached(s, events) && Rejoin(s, joining)
    requires joined == Ledger.RegisterAll(s, joining) && Fleet.HasRoomAfterSweep(joined, turns, large)
    ensures Fleet.RoundOk(Swept(joined), turns, now) && Ledger.Consistent(Fleet.RoundDone(Swept(joined), turns, now))
    ensures forall i :: 0 <= i < |turns| ==>
              Fleet.Healed(joined, Fleet.RoundDone(Swept(joined), turns, now), turns[i].name)
  {
    EmptyStoreConsistent();
    SoundOverHistories(EmptyStore(), events);
    RejoiningRepairs(s, joining);
    hide Ledger.Consistent, Fleet.Healed, Fleet.HasRoomAfterSweep, Rejoin, Reached, Swept, Ledger.RegisterAll;
    Fleet.SweepAndRound(joined, turns, now, large);
  }
}
