/** Runs of the whole control plane: single steps, sweeps, reconciles and queue drains in any order. */
module Cluster {
  import opened Collections
  import opened CapacityScripts
  import opened Schema
  import opened Store
  import opened Scheduler
  import opened Placement
  import opened Membership
  import Ledger
  import opened Replica
  import opened Consumer
  import opened ScaleDown
  import opened Recovery
  import Health

  // ----- a reconcile keeps the ledger exact -----

  lemma RemoveOneKeeps(s: State, alive: set<NodeId>, p: Pod)
    requires Ledger.Consistent(s) && KeyOf(p) in s.pods && s.pods[KeyOf(p)] == p
    ensures Ledger.Consistent(RemoveOne(s, alive, p.deployment, p))
  {
    hide Ledger.Consistent, Ledger.Freed;
    if p.nodeId in alive {
      var queues := Enqueue(s, p.nodeId, StopPod(KeyOf(p))).queues;
      Ledger.ChurnKeeps(s, s.leases, queues, s.deployments);
    } else {
      Ledger.RemovalKeeps(s, KeyOf(p));
    }
  }

  lemma {:induction false} RemoveAllKeeps(s: State, alive: set<NodeId>, name: string, list: seq<Pod>, all: set<PodKey>)
    requires Ledger.Consistent(s) && Represents(s.pods, list, all, name)
    ensures Ledger.Consistent(RemoveAll(s, alive, name, list))
    decreases |list|
  {
    hide Ledger.Consistent, Ledger.Freed, Represents;
    if list != [] {
      RepresentsSubset(s.pods, list, all, name);
      RepresentsAt(s.pods, list, all, name, 0);
      RemoveOneKeeps(s, alive, list[0]);
      var s1 := RemoveOne(s, alive, name, list[0]);
      TailRepresents(s.pods, list, all, name);
      RepresentsElsewhere(s.pods, s1.pods, list[1..], all - {KeyOf(list[0])}, name);
      RemoveAllKeeps(s1, alive, name, list[1..], all - {KeyOf(list[0])});
    }
  }

  lemma RepresentsElsewhere(pods: map<PodKey, Pod>, other: map<PodKey, Pod>, list: seq<Pod>, all: set<PodKey>,
                            name: string)
    requires Represents(pods, list, all, name) && all <= other.Keys
    requires forall k :: k in all ==> other[k] == pods[k]
    ensures Represents(other, list, all, name)
  {
    forall i | 0 <= i < |list|
      ensures KeyOf(list[i]) in all && other[KeyOf(list[i])] == list[i]
    {
      RepresentsAt(pods, list, all, name, i);
    }
  }

  lemma AllRepresented(s: State, name: string, scan: seq<PodKey>)
    requires ScansPods(s, name, scan) && Keyed(s)
    ensures Represents(s.pods, ReadAll(s, name, scan), PodsOf(s, name), name)
  {
    assert forall i :: 0 <= i < |scan| ==> scan[i] in Elements(scan);
    assert Keys(ReadAll(s, name, scan)) == scan;
  }

  lemma ChosenRepresented(s: State, name: string, live: seq<Pod>, n: nat)
    requires Represents(s.pods, live, LiveOf(s, name), name) && n <= |live|
    ensures var chosen := SelectVictims(live, n);
            Represents(s.pods - EvictedOf(s, name), chosen, Elements(Keys(chosen)), name)
  {
    hide Represents, SelectVictims;
    SelectsVictimSet(s.pods, live, LiveOf(s, name), name, n);
    var chosen := SelectVictims(live, n);
    RepresentsElsewhere(s.pods, s.pods - EvictedOf(s, name), chosen, Elements(Keys(chosen)), name);
  }

  ghost predicate ReconcileOk(s: State, name: string, scan: seq<PodKey>, ids: seq<PodId>) {
    && ScansPods(s, name, scan) && FreshIds(s, name, ids)
    && (name in s.deployments ==> |ids| >= s.deployments[name].desired - |KeepLive(ReadAll(s, name, scan))|)
  }

  // Stored specs carry their own name, ask for something and want no negative number of pods.
  ghost predicate Specified(s: State) {
    forall name :: name in s.deployments ==>
      var dep := s.deployments[name]; dep.name == name && UNIT.Leq(dep.request) && dep.desired >= 0
  }

  lemma ReconcileKeepsLedger(s: State, name: string, scan: seq<PodKey>, ids: seq<PodId>, now: string)
    requires Ledger.Consistent(s) && Specified(s) && ReconcileOk(s, name, scan, ids)
    ensures Ledger.Consistent(Reconciled(s, name, scan, ids, now))
    ensures Reconciled(s, name, scan, ids, now).deployments == s.deployments
  {
    hide Ledger.Consistent, Represents, SelectVictims, RemoveAll, ScheduleMany, KeepLive, LiveOf, PlacedBatch;
    hide RemovalEffect;
    ConsistentKeyed(s);
    AllRepresented(s, name, scan);
    LiveRepresented(s, name, scan);
    var pods := ReadAll(s, name, scan);
    if name !in s.deployments {
      RemoveAllKeeps(s, Live(s), name, pods, PodsOf(s, name));
      RemovalKeepsSpecs(s, Live(s), name, pods, s.pods, PodsOf(s, name));
    } else {
      var dep, live := s.deployments[name], KeepLive(pods);
      var s1 := s.(pods := s.pods - EvictedOf(s, name));
      DropEvictedConsistent(s, EvictedOf(s, name));
      if |live| < dep.desired {
        BatchPlaced(s1, dep, dep.desired - |live|, ids, now);
        BatchOnLive(s1, ScheduleMany(s1, dep, dep.desired - |live|, ids, now).0, name,
                    ScheduleMany(s1, dep, dep.desired - |live|, ids, now).1);
      } else if |live| > dep.desired {
        var chosen := SelectVictims(live, |live| - dep.desired);
        ChosenRepresented(s, name, live, |live| - dep.desired);
        RemoveAllKeeps(s1, Live(s1), name, chosen, Elements(Keys(chosen)));
        RemovalKeepsSpecs(s1, Live(s1), name, chosen, s1.pods, Elements(Keys(chosen)));
      }
    }
  }

  lemma RemovalKeepsSpecs(s: State, alive: set<NodeId>, name: string, list: seq<Pod>, pods: map<PodKey, Pod>,
                          all: set<PodKey>)
    requires Represents(pods, list, all, name)
    ensures RemoveAll(s, alive, name, list).deployments == s.deployments
  {
    hide Represents, RemoveAll;
    RemoveAllEffect(s, alive, name, list, pods, all);
  }

  // ----- handling a queued command -----

  predicate Writes(r: Health.SpawnResult) { r.SpawnFailed? || r.SpawnedOk? }

  // The oldest command of a queue starts an Evicted pod whose deployment still exists.
  predicate StaleStart(s: State, n: NodeId) {
    && Queue(s, n) != [] && Queue(s, n)[0].StartPod?
    && var k := Queue(s, n)[0].key;
       k in s.pods && k.deployment in s.deployments && s.pods[k].status == Evicted
  }

  lemma StartLedgerIff(s: State, k: PodKey, r: Health.SpawnResult)
    requires Ledger.Consistent(s)
    ensures Ledger.Consistent(Started(s, k, r)) <==>
              !(Writes(r) && k in s.pods && k.deployment in s.deployments && s.pods[k].status == Evicted)
  {
    if k in s.pods && k.deployment in s.deployments {
      var p := Health.AfterSpawn(s.pods[k], r);
      if Ledger.AgentMayWrite(s.pods[k], p) {
        hide Ledger.Consistent;
        Ledger.AgentWriteKeeps(s, k, p);
      } else if s.pods[k].nodeId in s.nodes {
        Ledger.StartKeepsLedgerIff(s, k, p);
      } else {
        assert k in Started(s, k, r).pods && !Ledger.Bound(Started(s, k, r));
      }
    }
  }

  // Handling a command keeps every ledger exact, unless it is a start that reaches the record of an Evicted pod.
  lemma DrainKeepsLedgerIff(s: State, n: NodeId, r: Health.SpawnResult)
    requires Ledger.Consistent(s)
    ensures Ledger.Consistent(Drained(s, n, r)) <==> !(StaleStart(s, n) && Writes(r))
  {
    hide Ledger.Consistent, Ledger.Freed, Started;
    if Queue(s, n) != [] {
      var queues := s.queues[n := Queue(s, n)[1..]];
      Ledger.ChurnKeeps(s, s.leases, queues, s.deployments);
      match Queue(s, n)[0]
      case StopPod(k) => Ledger.RemovalKeeps(s.(queues := queues), k);
      case StartPod(k) => StartLedgerIff(s.(queues := queues), k, r);
    }
  }

  // What can be checked before the command is taken: however the spawn ends, the ledger survives it, exactly when the
  // command is no start of an Evicted pod.
  lemma DrainSafeIff(s: State, n: NodeId)
    requires Ledger.Consistent(s)
    ensures (forall r :: Ledger.Consistent(Drained(s, n, r))) <==> !StaleStart(s, n)
  {
    hide Ledger.Consistent, Drained;
    forall r
      ensures Ledger.Consistent(Drained(s, n, r)) <==> !(StaleStart(s, n) && Writes(r))
    {
      DrainKeepsLedgerIff(s, n, r);
    }
    assert Writes(Health.SpawnFailed);
    assert Ledger.Consistent(Drained(s, n, Health.SpawnFailed)) <==> !StaleStart(s, n);
  }

  lemma DrainKeepsSpecs(s: State, n: NodeId, r: Health.SpawnResult)
    ensures Drained(s, n, r).deployments == s.deployments
  {
    hide Ledger.Freed;
  }

  // The node's next registration repairs what such a start broke.
  lemma RegisterRepairsStart(s: State, n: NodeId, r: Health.SpawnResult, total: Vec)
    requires Ledger.Consistent(s) && StaleStart(s, n) && s.pods[Queue(s, n)[0].key].nodeId != ""
    ensures Ledger.Consistent(Registered(Drained(s, n, r), s.pods[Queue(s, n)[0].key].nodeId, total))
  {
    hide Demand;
    var k := Queue(s, n)[0].key;
    var m, s' := s.pods[k].nodeId, Drained(s, n, r);
    var end := Registered(s', m, total);
    forall i | i in end.nodes
      ensures Ledger.ExactAt(end, i)
    {
      if i != m {
        assert Ledger.ExactAt(s, i);
        DemandChange(s.pods, s'.pods, k, i);
      }
    }
  }

  // ----- runs -----

  datatype Op =
    | Single(step: Ledger.Step)
    | Sweep
    | Reconcile(name: string, scan: seq<PodKey>, ids: seq<PodId>, now: string)
    | Drain(node: NodeId, spawn: Health.SpawnResult)

  ghost predicate Enabled(s: State, op: Op) {
    match op
    case Single(step) => Ledger.Enabled(s, step) && Specified(Ledger.Next(s, step))
    case Sweep => true
    case Reconcile(name, scan, ids, _) => ReconcileOk(s, name, scan, ids)
    case Drain(n, spawn) => !(StaleStart(s, n) && Writes(spawn))    // no start reaches the record of an Evicted pod
  }

  ghost function Next(s: State, op: Op): State
    requires Enabled(s, op)
  {
    match op
    case Single(step) => Ledger.Next(s, step)
    case Sweep => Swept(s)
    case Reconcile(name, scan, ids, now) => Reconciled(s, name, scan, ids, now)
    case Drain(n, spawn) => Drained(s, n, spawn)
  }

  ghost predicate IsRun(s: State, ops: seq<Op>)
    decreases |ops|
  {
    ops == [] || (Enabled(s, ops[0]) && IsRun(Next(s, ops[0]), ops[1..]))
  }

  ghost function After(s: State, ops: seq<Op>): State
    requires IsRun(s, ops)
    decreases |ops|
  {
    if ops == [] then s else After(Next(s, ops[0]), ops[1..])
  }

  lemma OpKeeps(s: State, op: Op)
    requires Ledger.Consistent(s) && Specified(s) && Enabled(s, op)
    ensures Ledger.Consistent(Next(s, op)) && Specified(Next(s, op))
  {
    hide Ledger.Consistent, Ledger.Next, Ledger.Enabled, Reconciled, Drained, ReconcileOk, StaleStart;
    match op
    case Single(step) => Ledger.StepKeeps(s, step);
    case Sweep => Ledger.EvictionKeeps(s, Dead(s));
    case Reconcile(name, scan, ids, now) => ReconcileKeepsLedger(s, name, scan, ids, now);
    case Drain(n, spawn) =>
      DrainKeepsLedgerIff(s, n, spawn);
      DrainKeepsSpecs(s, n, spawn);
  }

  // The ledger stays exact over every run of the control plane in which no leftover start reaches an Evicted pod.
  lemma {:induction false} LedgerExactOverRuns(s: State, ops: seq<Op>)
    requires Ledger.Consistent(s) && Specified(s) && IsRun(s, ops)
    ensures Ledger.Consistent(After(s, ops)) && Specified(After(s, ops))
    decreases |ops|
  {
    hide Ledger.Consistent, Specified, Next, Enabled;
    if ops != [] {
      OpKeeps(s, ops[0]);
      LedgerExactOverRuns(Next(s, ops[0]), ops[1..]);
    }
  }

  function EmptyStore(): State { State(map[], map[], {}, {}, map[], map[]) }

  lemma EmptyStoreConsistent()
    ensures Ledger.Consistent(EmptyStore()) && Specified(EmptyStore())
  {
  }

  // ----- the run that breaks it -----

  // One node joins, one pod is scheduled on it, the node is evicted.
  function EvictedBeforeStart(n: NodeId, total: Vec, dep: Deployment, id: PodId, now: string): seq<Op> {
    [Single(Ledger.Churn({n}, map[], map[dep.name := dep])), Single(Ledger.Register(n, total)),
     Single(Ledger.Schedule(dep, id, now, NoFault)), Single(Ledger.Evict(n))]
  }

  // The store with one live, empty node.
  function OneNode(n: NodeId, total: Vec, dep: Deployment): State {
    State(map[], map[n := Capacity(total, ZERO)], {n}, {n}, map[], map[dep.name := dep])
  }

  lemma NodeJoins(n: NodeId, total: Vec, dep: Deployment)
    ensures var s := Ledger.Next(EmptyStore(), Ledger.Churn({n}, map[], map[dep.name := dep]));
            Ledger.Next(s, Ledger.Register(n, total)) == OneNode(n, total, dep)
  {
    hide DemandOf;
    var pods: map<PodKey, Pod> := map[];
    assert pods.Keys == {};
    DemandNone(pods, pods.Keys, n);
  }

  lemma PodLands(n: NodeId, total: Vec, dep: Deployment, id: PodId, now: string)
    requires dep.request.Leq(total)
    ensures var s := OneNode(n, total, dep);
            Ledger.Next(s, Ledger.Schedule(dep, id, now, NoFault))
              == Bind(s.(nodes := Reserved(s.nodes, n, dep.request)), dep, id, n, now, true)
  {
    var s := OneNode(n, total, dep);
    assert n in Fitting(s, dep.request) && forall m :: m in Fitting(s, dep.request) ==> m == n;
    BestIsTightest(s, dep.request);
    PlaceOne(s, dep, id, now, NoFault);
  }

  // Any pod evicted before its start command was taken will do: the run below is one the control plane can make from
  // an empty store, and its next drain starts the Evicted pod and breaks the ledger.
  lemma LeftoverStartBreaksLedger(n: NodeId, total: Vec, dep: Deployment, id: PodId, now: string, r: Health.SpawnResult)
    requires n != "" && UNIT.Leq(dep.request) && dep.request.Leq(total) && dep.desired >= 0 && Writes(r)
    ensures var ops := EvictedBeforeStart(n, total, dep, id, now);
            && IsRun(EmptyStore(), ops) && StaleStart(After(EmptyStore(), ops), n)
            && !Ledger.Consistent(Drained(After(EmptyStore(), ops), n, r))
  {
    var ops := EvictedBeforeStart(n, total, dep, id, now);
    var s1 := Ledger.Next(EmptyStore(), ops[0].step);
    var s2, s3 := OneNode(n, total, dep), Ledger.Next(OneNode(n, total, dep), ops[2].step);
    var s4 := Ledger.Next(s3, ops[3].step);
    NodeJoins(n, total, dep);
    PodLands(n, total, dep, id, now);
    hide Demand, Reserved, Drained, Ledger.Consistent;
    assert s1.deployments == s2.deployments == s3.deployments == s4.deployments == map[dep.name := dep];
    FourSteps(ops, s1, s2, s3, s4);
    EmptyStoreConsistent();
    LedgerExactOverRuns(EmptyStore(), ops);
    assert Queue(s4, n) == [StartPod(PodKey(dep.name, id))];
    DrainKeepsLedgerIff(s4, n, r);
  }

  lemma FourSteps(ops: seq<Op>, s1: State, s2: State, s3: State, s4: State)
    requires |ops| == 4 && Enabled(EmptyStore(), ops[0]) && Next(EmptyStore(), ops[0]) == s1
    requires Enabled(s1, ops[1]) && Next(s1, ops[1]) == s2 && Enabled(s2, ops[2]) && Next(s2, ops[2]) == s3
    requires Enabled(s3, ops[3]) && Next(s3, ops[3]) == s4
    ensures IsRun(EmptyStore(), ops) && After(EmptyStore(), ops) == s4
  {
    hide Enabled, Next;
    var o1, o2, o3 := ops[1..], ops[2..], ops[3..];
    assert o1[1..] == o2 && o2[1..] == o3 && o3[1..] == [] && o1[0] == ops[1] && o2[0] == ops[2] && o3[0] == ops[3];
    assert IsRun(s4, []) && IsRun(s3, o3) && IsRun(s2, o2) && IsRun(s1, o1);
    assert After(s1, o1) == After(s2, o2) == After(s3, o3) == After(s4, []) == s4;
  }
}
