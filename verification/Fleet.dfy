/** A full reconcile: every deployment in turn, from one condition on the state it starts in
    (internal/controller/replica.go). */
module Fleet {
  import opened Arithmetic
  import opened Collections
  import opened Schema
  import opened Store
  import opened CapacityScripts
  import opened Scheduler
  import opened Placement
  import opened Membership
  import Ledger
  import opened Replica
  import opened ScaleDown
  import opened Recovery
  import opened Cluster

  // ----- slots of the largest request -----

  // Room for a large request is room for a small one.
  lemma SmallerFitsMore(cap: Capacity, req: Vec, large: Vec)
    requires UNIT.Leq(req) && req.Leq(large)
    ensures Slots(cap, large) <= Slots(cap, req)
  {
    if cap.Fits(large) {
      DivisorShrinks(cap.Free().cpu, req.cpu, large.cpu);
      DivisorShrinks(cap.Free().mem, req.mem, large.mem);
    }
  }

  lemma DivisorShrinks(x: int, c: int, d: int)
    requires x >= 0 && 1 <= c <= d
    ensures x / d <= x / c
  {
    var q := x / d;
    QuotientBounds(x, d);
    assert q >= 0;
    MulMonotone(q, c, d);
    QuotientAtLeast(x, c, q);
  }

  lemma TotalSlotsShrink(s: State, req: Vec, large: Vec)
    requires UNIT.Leq(req) && req.Leq(large)
    ensures TotalSlots(s, large) <= TotalSlots(s, req)
  {
    forall n | n in Live(s)
      ensures SlotsAt(s, large)(n) <= SlotsAt(s, req)(n)
    {
      if n in s.nodes { SmallerFitsMore(s.nodes[n], req, large); }
    }
    SumMonotone(Live(s), SlotsAt(s, large), SlotsAt(s, req));
  }

  lemma QuotientDropsAtMost(f: int, q: int, d: int)
    requires 1 <= q <= d
    ensures (f - q) / d >= f / d - 1
  {
    QuotientBounds(f, d);
    assert (f / d - 1) * d == (f / d) * d - d;
    QuotientAtLeast(f - q, d, f / d - 1);
  }

  // A placement takes at most one slot of any larger request.
  lemma SlotsDropAtMost(nodes: map<NodeId, Capacity>, n: NodeId, req: Vec, large: Vec)
    requires UNIT.Leq(req) && req.Leq(large) && Accepts(nodes, n, req)
    ensures Slots(Reserved(nodes, n, req)[n], large) >= Slots(nodes[n], large) - 1
  {
    var free, after := nodes[n].Free(), Reserved(nodes, n, req)[n].Free();
    assert after.cpu == free.cpu - req.cpu && after.mem == free.mem - req.mem;
    QuotientDropsAtMost(free.cpu, req.cpu, large.cpu);
    QuotientDropsAtMost(free.mem, req.mem, large.mem);
    if after.cpu < large.cpu {
      QuotientAtLeast(after.cpu, large.cpu, 1);
    }
    if after.mem < large.mem {
      QuotientAtLeast(after.mem, large.mem, 1);
    }
  }

  lemma PlacementCosts(s: State, dep: Deployment, id: PodId, n: NodeId, now: string, large: Vec)
    requires UNIT.Leq(dep.request) && dep.request.Leq(large) && n in Fitting(s, dep.request)
    ensures TotalSlots(PlaceOn(s, dep, id, n, now), large) >= TotalSlots(s, large) - 1
  {
    hide Slots;
    var s' := PlaceOn(s, dep, id, n, now);
    SlotsDropAtMost(s.nodes, n, dep.request, large);
    SumChange(Live(s), n, SlotsAt(s, large), SlotsAt(s', large));
  }

  lemma {:induction false} BatchCosts(s: State, dep: Deployment, count: int, ids: seq<PodId>, now: string, large: Vec)
    requires UNIT.Leq(dep.request) && dep.request.Leq(large) && 0 <= count <= |ids|
    ensures TotalSlots(ScheduleMany(s, dep, count, ids, now).0, large) >= TotalSlots(s, large) - count
    decreases count
  {
    hide TotalSlots, Best, CanPlace;
    if count > 0 && CanPlace(s, dep.request) {
      BestIsTightest(s, dep.request);
      var n := Best(s, dep.request);
      PlacementCosts(s, dep, ids[0], n, now, large);
      BatchCosts(PlaceOn(s, dep, ids[0], n, now), dep, count - 1, ids[1..], now, large);
    }
  }

  // ----- one turn -----

  ghost predicate QueuesGrow(s: State, s': State) { forall n, k :: StopQueued(s, n, k) ==> StopQueued(s', n, k) }

  // Stops wait for the pods in excess, and for the right ones.
  ghost predicate ExcessQueued(s: State, name: string, excess: int) {
    exists victims :: IsVictimSet(s.pods, LiveOf(s, name), victims, excess) && AllQueued(s, victims)
  }

  ghost predicate AllQueued(s: State, victims: set<PodKey>) {
    forall k :: k in victims ==> k in s.pods && StopQueued(s, s.pods[k].nodeId, k)
  }

  // As many pods as wanted or more, none Evicted, all on live nodes, and what is in excess told to stop.
  ghost predicate Tended(s: State, name: string) {
    && name in s.deployments && Missing(s, name) <= 0 && EvictedOf(s, name) == {} && Leased(s, name)
    && (Missing(s, name) < 0 ==> ExcessQueued(s, name, -Missing(s, name)))
  }

  // A deployment's own part of the state is untouched.
  ghost predicate KeptFor(s: State, s': State, name: string) {
    && s'.registry == s.registry && s'.leases == s.leases && s'.deployments == s.deployments
    && (forall k: PodKey :: k.deployment == name ==>
          (k in s'.pods <==> k in s.pods) && (k in s.pods ==> s'.pods[k] == s.pods[k]))
  }

  lemma {:induction false} BatchQueues(s: State, dep: Deployment, count: int, ids: seq<PodId>, now: string)
    requires |ids| >= count
    ensures QueuesGrow(s, ScheduleMany(s, dep, count, ids, now).0)
    decreases if count < 0 then 0 else count
  {
    hide Best, CanPlace, Reserved;
    if count > 0 && CanPlace(s, dep.request) {
      var n := Best(s, dep.request);
      BatchQueues(PlaceOn(s, dep, ids[0], n, now), dep, count - 1, ids[1..], now);
      hide ScheduleMany;
      forall m, k | StopQueued(s, m, k)
        ensures StopQueued(PlaceOn(s, dep, ids[0], n, now), m, k)
      {
      }
    }
  }

  // Pods on live nodes are only told to stop: nothing but the queues changes.
  lemma {:induction false} RemoveAllQueues(s: State, alive: set<NodeId>, name: string, list: seq<Pod>)
    requires forall i :: 0 <= i < |list| ==> list[i].nodeId in alive
    ensures var s' := RemoveAll(s, alive, name, list); s' == s.(queues := s'.queues)
    decreases |list|
  {
    if list != [] {
      RemoveAllQueues(RemoveOne(s, alive, name, list[0]), alive, name, list[1..]);
    }
  }

  // A turn that finds too many.
  lemma TurnIsRemoval(s: State, name: string, scan: seq<PodKey>, ids: seq<PodId>, now: string)
    requires Keyed(s) && name != "" && name in s.deployments && ScansPods(s, name, scan) && Missing(s, name) < 0
    ensures Represents(s.pods, KeepLive(ReadAll(s, name, scan)), LiveOf(s, name), name)
    ensures |KeepLive(ReadAll(s, name, scan))| == |LiveOf(s, name)|
    ensures var s1 := s.(pods := s.pods - EvictedOf(s, name));
            Reconciled(s, name, scan, ids, now) ==
              RemoveAll(s1, Live(s1), name, SelectVictims(KeepLive(ReadAll(s, name, scan)), -Missing(s, name)))
  {
    LiveRepresented(s, name, scan);
    hide KeepLive, SelectVictims, Represents, RemoveAll, LiveOf, Keyed, IsScan, ScheduleMany;
  }

  lemma TurnTrims(s: State, name: string, scan: seq<PodKey>, ids: seq<PodId>, now: string)
    requires Ledger.Consistent(s) && Leased(s, name) && name != "" && name in s.deployments && ScansPods(s, name, scan)
    requires 0 <= s.deployments[name].desired && Missing(s, name) < 0
    ensures |KeepLive(ReadAll(s, name, scan))| == |LiveOf(s, name)|
    ensures var end := Reconciled(s, name, scan, ids, now);
            && end.nodes == s.nodes && LiveOf(end, name) == LiveOf(s, name) && LiveKept(s, end, name)
            && Tended(end, name) && OthersKept(s, end, name) && QueuesGrow(s, end)
  {
    hide Ledger.Consistent, KeepLive, SelectVictims, Represents, IsVictimSet, RemoveAll, LiveOf, Tended, OthersKept;
    hide LiveKept, QueuesGrow, Leased, Keyed, ScansPods, Reconciled;
    var live, n := KeepLive(ReadAll(s, name, scan)), -Missing(s, name);
    ConsistentKeyed(s);
    TurnIsRemoval(s, name, scan, ids, now);
    SelectsVictimSet(s.pods, live, LiveOf(s, name), name, n);
    ChosenRepresented(s, name, live, n);
    TrimEffect(s, s.(pods := s.pods - EvictedOf(s, name)), name, SelectVictims(live, n));
  }

  lemma TrimEffect(s: State, s1: State, name: string, chosen: seq<Pod>)
    requires s1 == s.(pods := s.pods - EvictedOf(s, name)) && name in s.deployments && Leased(s, name)
    requires Missing(s, name) < 0
    requires IsVictimSet(s.pods, LiveOf(s, name), Elements(Keys(chosen)), -Missing(s, name))
    requires Represents(s1.pods, chosen, Elements(Keys(chosen)), name)
    ensures var end := RemoveAll(s1, Live(s1), name, chosen);
            && end.nodes == s.nodes && LiveOf(end, name) == LiveOf(s, name) && LiveKept(s, end, name)
            && Tended(end, name) && OthersKept(s, end, name) && QueuesGrow(s, end)
  {
    hide RemoveAll, StopQueued, VictimLess;
    var victims := Elements(Keys(chosen));
    var end := RemoveAll(s1, Live(s1), name, chosen);
    forall i | 0 <= i < |chosen|
      ensures chosen[i].nodeId in Live(s1)
    {
      RepresentsAt(s1.pods, chosen, victims, name, i);
      assert KeyOf(chosen[i]) in LiveOf(s, name);
    }
    RemoveAllQueues(s1, Live(s1), name, chosen);
    RemoveAllEffect(s1, Live(s1), name, chosen, s1.pods, victims);
    SameQueues(s, s1);
    assert LiveOf(end, name) == LiveOf(s, name) && EvictedOf(end, name) == {};
    hide Represents;
    SameVictims(s.pods, end.pods, LiveOf(s, name), victims, -Missing(s, name));
    assert AllQueued(end, victims);
  }

  // A turn that finds enough or too few is a batch of placements.
  lemma TurnIsBatch(s: State, name: string, scan: seq<PodKey>, ids: seq<PodId>, now: string)
    requires Ledger.Consistent(s) && name != "" && name in s.deployments && ScansPods(s, name, scan)
    requires 0 <= Missing(s, name) <= |ids|
    ensures |KeepLive(ReadAll(s, name, scan))| == |LiveOf(s, name)|
    ensures Reconciled(s, name, scan, ids, now)
         == ScheduleMany(s.(pods := s.pods - EvictedOf(s, name)), s.deployments[name], Missing(s, name), ids, now).0
  {
    ConsistentKeyed(s);
    LiveRepresented(s, name, scan);
    hide Ledger.Consistent, KeepLive, LiveOf, ScheduleMany, Represents;
    NoneScheduled(s.(pods := s.pods - EvictedOf(s, name)), s.deployments[name], 0, ids, now);
  }

  lemma TurnRestores(s: State, name: string, scan: seq<PodKey>, ids: seq<PodId>, now: string, large: Vec)
    requires Ledger.Consistent(s) && Leased(s, name) && Restorable(s, name, scan, ids)
    requires s.deployments[name].request.Leq(large)
    ensures |KeepLive(ReadAll(s, name, scan))| == |LiveOf(s, name)|
    ensures var end := Reconciled(s, name, scan, ids, now);
            && Healthy(end, name) && LiveKept(s, end, name) && OthersKept(s, end, name) && QueuesGrow(s, end)
            && TotalSlots(end, large) >= TotalSlots(s, large) - Missing(s, name)
  {
    hide Ledger.Consistent, TotalSlots, Healthy, OthersKept, KeepLive, LiveOf, ScheduleMany, StopQueued, Reconciled, LiveKept;
    ReconcileRestores(s, name, scan, ids, now);
    TurnIsBatch(s, name, scan, ids, now);
    hide ScansPods, FreshIds, Leased;
    var dep, s1 := s.deployments[name], s.(pods := s.pods - EvictedOf(s, name));
    SameSlots(s, s1, large);
    SameQueues(s, s1);
    BatchCosts(s1, dep, Missing(s, name), ids, now, large);
    BatchQueues(s1, dep, Missing(s, name), ids, now);
  }

  // The counts a reconcile reports are what it did: it saw the live pods, created as many as were missing and fitted,
  // and asked as many to go as there were in excess.
  lemma DeltaMeaning(s: State, name: string, scan: seq<PodKey>, ids: seq<PodId>, now: string)
    requires Ledger.Consistent(s) && name != "" && name in s.deployments && ScansPods(s, name, scan)
    requires UNIT.Leq(s.deployments[name].request) && s.deployments[name].desired >= 0 && |ids| >= Missing(s, name)
    ensures |KeepLive(ReadAll(s, name, scan))| == |LiveOf(s, name)|
    ensures var d, missing := DeltaOf(s, name, scan, ids, now), Missing(s, name);
            && d.desired == s.deployments[name].desired && d.observed == |LiveOf(s, name)|
            && d.created == Max(0, Min(missing, TotalSlots(s, s.deployments[name].request)))
            && d.removed == Max(0, -missing)
  {
    ConsistentKeyed(s);
    LiveRepresented(s, name, scan);
    NoSlotsWithoutRoom(s, s.deployments[name].request);
    hide Ledger.Consistent, KeepLive, LiveOf, Represents, TotalSlots, ScheduleMany, IsScan, EvictedOf, ReadAll, Keyed;
    if Missing(s, name) > 0 {
      CreatedCount(s, s.(pods := s.pods - EvictedOf(s, name)), s.deployments[name], Missing(s, name), ids, now);
    }
  }

  lemma CreatedCount(s: State, s1: State, dep: Deployment, missing: nat, ids: seq<PodId>, now: string)
    requires s1 == s.(pods := s1.pods) && UNIT.Leq(dep.request) && missing <= |ids|
    ensures |ScheduleMany(s1, dep, missing, ids, now).1| == Min(missing, TotalSlots(s, dep.request))
  {
    hide TotalSlots, ScheduleMany;
    SameSlots(s, s1, dep.request);
    PlacementIsMaximal(s1, dep, missing, ids, now);
  }

  // ----- a round -----

  /** One deployment's turn in a full reconcile. */
  datatype Turn = Turn(name: string, scan: seq<PodKey>, ids: seq<PodId>)

  ghost predicate TurnOk(s: State, t: Turn, large: Vec) {
    && t.name != "" && t.name in s.deployments && s.deployments[t.name].request.Leq(large)
    && ScansPods(s, t.name, t.scan) && FreshIds(s, t.name, t.ids) && |t.ids| >= Missing(s, t.name)
  }

  ghost predicate Distinct(turns: seq<Turn>) { forall i, j :: 0 <= i < j < |turns| ==> turns[i].name != turns[j].name }

  // How many pods the deployments of a round are short of.
  function Shortfall(s: State, turns: seq<Turn>): int
    requires forall i :: 0 <= i < |turns| ==> turns[i].name in s.deployments
  {
    if turns == [] then 0 else Max(0, Missing(s, turns[0].name)) + Shortfall(s, turns[1..])
  }

  // Each deployment once, and room, in slots of the largest request, for all that is missing.
  ghost predicate HasRoom(s: State, turns: seq<Turn>, large: Vec) {
    && UNIT.Leq(large) && Distinct(turns) && (forall i :: 0 <= i < |turns| ==> TurnOk(s, turns[i], large))
    && Shortfall(s, turns) <= TotalSlots(s, large)
  }

  // Everything asked of the state a round starts in.
  ghost predicate Ready(s: State, turns: seq<Turn>, large: Vec) {
    Ledger.Consistent(s) && Specified(s) && (forall name :: Leased(s, name)) && HasRoom(s, turns, large)
  }

  // The reconciles of a round are defined one after another.
  ghost predicate RoundOk(s: State, turns: seq<Turn>, now: string)
    decreases |turns|
  {
    turns != [] ==>
      && ReconcileOk(s, turns[0].name, turns[0].scan, turns[0].ids)
      && RoundOk(Reconciled(s, turns[0].name, turns[0].scan, turns[0].ids, now), turns[1..], now)
  }

  ghost function RoundDone(s: State, turns: seq<Turn>, now: string): State
    requires RoundOk(s, turns, now)
    decreases |turns|
  {
    if turns == [] then s
    else RoundDone(Reconciled(s, turns[0].name, turns[0].scan, turns[0].ids, now), turns[1..], now)
  }

  // What a round owes a deployment it visits: exactly the wanted number if it did not start above it, and otherwise
  // nothing lost and the excess told to stop.
  ghost predicate Served(s: State, end: State, name: string) {
    && name in s.deployments && Tended(end, name) && LiveKept(s, end, name)
    && (Missing(s, name) >= 0 ==> Healthy(end, name))
    && (Missing(s, name) < 0 ==> LiveOf(end, name) == LiveOf(s, name))
  }

  lemma KeptParts(s: State, s': State, name: string)
    requires KeptFor(s, s', name)
    ensures PodsOf(s', name) == PodsOf(s, name) && LiveOf(s', name) == LiveOf(s, name)
    ensures EvictedOf(s', name) == EvictedOf(s, name) && (Leased(s', name) <==> Leased(s, name))
    ensures forall k :: k in PodsOf(s, name) ==> s'.pods[k] == s.pods[k]
  {
  }

  lemma TurnStaysOk(s: State, s': State, t: Turn, large: Vec)
    requires TurnOk(s, t, large) && KeptFor(s, s', t.name)
    ensures TurnOk(s', t, large) && Missing(s', t.name) == Missing(s, t.name)
  {
    KeptParts(s, s', t.name);
  }

  lemma {:induction false} ShortfallSame(s: State, s': State, turns: seq<Turn>)
    requires s'.deployments == s.deployments
    requires forall i :: 0 <= i < |turns| ==> turns[i].name in s.deployments && KeptFor(s, s', turns[i].name)
    ensures Shortfall(s', turns) == Shortfall(s, turns)
    decreases |turns|
  {
    if turns != [] {
      hide KeptFor;
      KeptParts(s, s', turns[0].name);
      ShortfallSame(s, s', turns[1..]);
    }
  }

  lemma {:induction false} ShortfallNonNegative(s: State, turns: seq<Turn>)
    requires forall i :: 0 <= i < |turns| ==> turns[i].name in s.deployments
    ensures Shortfall(s, turns) >= 0
    decreases |turns|
  {
    if turns != [] {
      ShortfallNonNegative(s, turns[1..]);
    }
  }

  // Being served survives turns that touch other deployments.
  lemma ServedStays(s: State, s1: State, end: State, name: string)
    requires Served(s, s1, name) && KeptFor(s1, end, name) && QueuesGrow(s1, end)
    ensures Served(s, end, name)
  {
    hide StopQueued, VictimLess;
    KeptParts(s1, end, name);
    var excess := -Missing(s1, name);
    if excess > 0 {
      var victims :| IsVictimSet(s1.pods, LiveOf(s1, name), victims, excess) && AllQueued(s1, victims);
      hide KeptFor;
      SameVictims(s1.pods, end.pods, LiveOf(s1, name), victims, excess);
      assert AllQueued(end, victims);
    }
  }

  // The first turn of a round: what it does for its own deployment, and that the rest of the round is still ready.
  lemma FirstTurn(s: State, turns: seq<Turn>, now: string, large: Vec)
    requires Ready(s, turns, large) && turns != []
    ensures ReconcileOk(s, turns[0].name, turns[0].scan, turns[0].ids)
    ensures var s1 := Reconciled(s, turns[0].name, turns[0].scan, turns[0].ids, now);
            && Served(s, s1, turns[0].name) && OthersKept(s, s1, turns[0].name) && QueuesGrow(s, s1)
            && Ledger.Consistent(s1) && Specified(s1)
            && TotalSlots(s1, large) >= TotalSlots(s, large) - Max(0, Missing(s, turns[0].name))
  {
    var t, rest := turns[0], turns[1..];
    ShortfallNonNegative(s, rest);
    FirstShare(s, turns);
    assert TurnOk(s, t, large);
    hide Shortfall, Distinct;
    ConsistentKeyed(s);
    LiveRepresented(s, t.name, t.scan);
    hide Ledger.Consistent, KeepLive, Represents;
    ReconcileKeepsLedger(s, t.name, t.scan, t.ids, now);
    if Missing(s, t.name) >= 0 {
      TotalSlotsShrink(s, s.deployments[t.name].request, large);
      TurnRestores(s, t.name, t.scan, t.ids, now, large);
      HealthyIsTended(Reconciled(s, t.name, t.scan, t.ids, now), t.name);
    } else {
      TurnTrims(s, t.name, t.scan, t.ids, now);
      SameNodesSlots(s, Reconciled(s, t.name, t.scan, t.ids, now), large);
    }
  }

  lemma FirstShare(s: State, turns: seq<Turn>)
    requires turns != [] && forall i :: 0 <= i < |turns| ==> turns[i].name in s.deployments
    ensures Shortfall(s, turns) == Max(0, Missing(s, turns[0].name)) + Shortfall(s, turns[1..])
  {
  }

  lemma HealthyIsTended(s: State, name: string)
    requires Healthy(s, name)
    ensures Tended(s, name)
  {
  }

  lemma SameNodesSlots(s: State, s': State, req: Vec)
    requires s'.nodes == s.nodes && s'.registry == s.registry && s'.leases == s.leases
    ensures TotalSlots(s', req) == TotalSlots(s, req)
  {
    SameSlots(s, s', req);
  }

  // A full reconcile visits each deployment once. If the cluster it starts in has room, counted in slots of the largest
  // request, for everything that is missing, then every deployment visited that was not above its wanted number ends
  // exactly at it, and the others lose nothing and have their excess told to stop; no turn undoes another.
  lemma {:induction false} RoundRestoresAll(s: State, turns: seq<Turn>, now: string, large: Vec)
    requires Ready(s, turns, large)
    ensures RoundOk(s, turns, now)
    ensures var end := RoundDone(s, turns, now);
            && Ledger.Consistent(end) && QueuesGrow(s, end)
            && (forall i :: 0 <= i < |turns| ==> Served(s, end, turns[i].name))
            && (forall name :: (forall i :: 0 <= i < |turns| ==> turns[i].name != name) ==> KeptFor(s, end, name))
    decreases |turns|
  {
    if turns == [] {
      NothingDone(s);
    } else {
      var t, rest := turns[0], turns[1..];
      FirstTurn(s, turns, now, large);
      var s1 := Reconciled(s, t.name, t.scan, t.ids, now);
      RestReady(s, s1, turns, large);
      hide Ready, Served, KeptFor, QueuesGrow, OthersKept, Ledger.Consistent, Reconciled;
      RoundRestoresAll(s1, rest, now, large);
      RoundJoins(s, s1, RoundDone(s1, rest, now), turns);
    }
  }

  lemma NothingDone(s: State)
    ensures QueuesGrow(s, s) && forall name :: KeptFor(s, s, name)
  {
  }

  lemma RestReady(s: State, s1: State, turns: seq<Turn>, large: Vec)
    requires Ready(s, turns, large) && turns != []
    requires Served(s, s1, turns[0].name) && OthersKept(s, s1, turns[0].name)
    requires Ledger.Consistent(s1) && Specified(s1)
    requires TotalSlots(s1, large) >= TotalSlots(s, large) - Max(0, Missing(s, turns[0].name))
    ensures Ready(s1, turns[1..], large)
  {
    hide Ledger.Consistent, TotalSlots, Specified, LiveOf, ScansPods, FreshIds;
    var t, rest := turns[0], turns[1..];
    forall name | name != t.name
      ensures KeptFor(s, s1, name) && Leased(s1, name)
    {
      KeptParts(s, s1, name);
    }
    forall i | 0 <= i < |rest|
      ensures rest[i].name != t.name && TurnOk(s1, rest[i], large)
    {
      assert rest[i] == turns[i + 1];
      TurnStaysOk(s, s1, rest[i], large);
    }
    ShortfallSame(s, s1, rest);
    FirstShare(s, turns);
  }

  // The first turn and the rest of the round together.
  lemma RoundJoins(s: State, s1: State, end: State, turns: seq<Turn>)
    requires turns != [] && Distinct(turns)
    requires Served(s, s1, turns[0].name) && OthersKept(s, s1, turns[0].name) && QueuesGrow(s, s1)
    requires QueuesGrow(s1, end) && forall i :: 0 <= i < |turns[1..]| ==> Served(s1, end, turns[1..][i].name)
    requires forall name :: (forall i :: 0 <= i < |turns[1..]| ==> turns[1..][i].name != name) ==> KeptFor(s1, end, name)
    ensures QueuesGrow(s, end) && forall i :: 0 <= i < |turns| ==> Served(s, end, turns[i].name)
    ensures forall name :: (forall i :: 0 <= i < |turns| ==> turns[i].name != name) ==> KeptFor(s, end, name)
  {
    hide Served, StopQueued;
    forall i | 0 <= i < |turns|
      ensures Served(s, end, turns[i].name)
    {
      if i == 0 {
        assert forall j :: 0 <= j < |turns[1..]| ==> turns[1..][j] == turns[j + 1];
        ServedStays(s, s1, end, turns[0].name);
      } else {
        assert turns[1..][i - 1] == turns[i];
        ServedSince(s, s1, end, turns[i].name);
      }
    }
    forall name | forall i :: 0 <= i < |turns| ==> turns[i].name != name
      ensures KeptFor(s, end, name)
    {
      assert forall i :: 0 <= i < |turns[1..]| ==> turns[1..][i] == turns[i + 1];
      assert KeptFor(s, s1, name) && KeptFor(s1, end, name);
    }
  }

  lemma ServedSince(s: State, s1: State, end: State, name: string)
    requires KeptFor(s, s1, name) && Served(s1, end, name)
    ensures Served(s, end, name)
  {
    KeptParts(s, s1, name);
  }

  // ----- from an empty store -----

  // How many pods a deployment is short of once the dead nodes are swept.
  function MissingAfterSweep(s: State, name: string): int
    requires name in s.deployments
  {
    s.deployments[name].desired - |Surviving(s, name)|
  }

  function ShortfallAfterSweep(s: State, turns: seq<Turn>): int
    requires forall i :: 0 <= i < |turns| ==> turns[i].name in s.deployments
  {
    if turns == [] then 0 else Max(0, MissingAfterSweep(s, turns[0].name)) + ShortfallAfterSweep(s, turns[1..])
  }

  ghost predicate TurnOkAfterSweep(s: State, t: Turn, large: Vec) {
    && t.name != "" && t.name in s.deployments && s.deployments[t.name].request.Leq(large)
    && ScansPods(s, t.name, t.scan) && FreshIds(s, t.name, t.ids) && |t.ids| >= MissingAfterSweep(s, t.name)
  }

  // Room on the leased nodes for what a sweep and a full reconcile will have to replace.
  ghost predicate HasRoomAfterSweep(s: State, turns: seq<Turn>, large: Vec) {
    && UNIT.Leq(large) && Distinct(turns) && (forall i :: 0 <= i < |turns| ==> TurnOkAfterSweep(s, turns[i], large))
    && ShortfallAfterSweep(s, turns) <= TotalSlots(s, large)
  }

  lemma {:induction false} SameShortfall(s: State, turns: seq<Turn>)
    requires Ledger.Consistent(s) && forall i :: 0 <= i < |turns| ==> turns[i].name in s.deployments
    ensures Shortfall(Swept(s), turns) == ShortfallAfterSweep(s, turns)
    decreases |turns|
  {
    if turns != [] {
      hide Ledger.Consistent;
      SweepLeaves(s, turns[0].name, UNIT);
      SameShortfall(s, turns[1..]);
    }
  }

  lemma RoomCarries(s: State, turns: seq<Turn>, large: Vec)
    requires Ledger.Consistent(s) && HasRoomAfterSweep(s, turns, large)
    ensures HasRoom(Swept(s), turns, large)
  {
    hide TotalSlots, Ledger.Consistent;
    SameShortfall(s, turns);
    SweepLeaves(s, "", large);
    hide Shortfall, ShortfallAfterSweep;
    forall i | 0 <= i < |turns|
      ensures TurnOk(Swept(s), turns[i], large)
    {
      assert TurnOkAfterSweep(s, turns[i], large);
      SweepLeaves(s, turns[i].name, large);
    }
  }

  // The pods on leased nodes keep their records; with no more of them than wanted the deployment ends exactly at
  // strength, otherwise with just those and the excess told to stop.
  ghost predicate Healed(s: State, end: State, name: string) {
    && name in s.deployments && Tended(end, name)
    && (forall k :: k in Surviving(s, name) ==> k in end.pods && end.pods[k] == s.pods[k])
    && (MissingAfterSweep(s, name) >= 0 ==> Healthy(end, name))
    && (MissingAfterSweep(s, name) < 0 ==> LiveOf(end, name) == Surviving(s, name))
  }

  lemma ServedIsHealed(s: State, end: State, name: string)
    requires Ledger.Consistent(s) && Served(Swept(s), end, name)
    ensures Healed(s, end, name)
  {
    hide Ledger.Consistent, Tended, Healthy;
    SweepLeaves(s, name, UNIT);
  }

  // A sweep and a full reconcile from any consistent state whose leased nodes have room.
  lemma SweepAndRound(s: State, turns: seq<Turn>, now: string, large: Vec)
    requires Ledger.Consistent(s) && Specified(s) && HasRoomAfterSweep(s, turns, large)
    ensures RoundOk(Swept(s), turns, now) && Ledger.Consistent(RoundDone(Swept(s), turns, now))
    ensures forall i :: 0 <= i < |turns| ==> Healed(s, RoundDone(Swept(s), turns, now), turns[i].name)
  {
    SweepKeeps(s);
    RoomCarries(s, turns, large);
    hide Ledger.Consistent, Leased, Served, HasRoom, HasRoomAfterSweep, Specified, Healed, Swept;
    RoundRestoresAll(Swept(s), turns, now, large);
    forall i | 0 <= i < |turns|
      ensures Healed(s, RoundDone(Swept(s), turns, now), turns[i].name)
    {
      ServedIsHealed(s, RoundDone(Swept(s), turns, now), turns[i].name);
    }
  }

  // From an empty store, after any run in which no leftover start reached an Evicted pod, a sweep and a full reconcile
  // heal every deployment visited and leave every ledger exact, given room on the leased nodes.
  lemma SelfHealing(s: State, ops: seq<Op>, turns: seq<Turn>, now: string, large: Vec)
    requires Cluster.IsRun(EmptyStore(), ops) && Cluster.After(EmptyStore(), ops) == s
    requires HasRoomAfterSweep(s, turns, large)
    ensures RoundOk(Swept(s), turns, now) && Ledger.Consistent(RoundDone(Swept(s), turns, now))
    ensures forall i :: 0 <= i < |turns| ==> Healed(s, RoundDone(Swept(s), turns, now), turns[i].name)
  {
    EmptyStoreConsistent();
    LedgerExactOverRuns(EmptyStore(), ops);
    hide Ledger.Consistent, Healed, HasRoomAfterSweep, Specified, Swept;
    SweepAndRound(s, turns, now, large);
  }

  lemma SweepKeeps(s: State)
    requires Ledger.Consistent(s) && Specified(s)
    ensures Ledger.Consistent(Swept(s)) && Specified(Swept(s)) && forall name :: Leased(Swept(s), name)
  {
    forall name
      ensures Leased(Swept(s), name)
    {
      SurvivorsAreLeased(s, name);
    }
    Ledger.EvictionKeeps(s, Dead(s));
  }
}
