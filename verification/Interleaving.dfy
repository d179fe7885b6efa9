/** Schedulers, removers and evictions interleaved one script at a time: what the atomic scripts alone guarantee. */
module Interleaving {
  import opened Collections
  import opened Schema
  import opened Store
  import opened CapacityScripts
  import opened Scheduler
  import opened Membership

  type ThreadId = nat

  /** A scheduler placing one replica. `met` records the capacities each of its reserve scripts ran against. */
  datatype Thread =
    | Idle
    | Trying(req: Vec, candidates: seq<NodeId>, met: seq<map<NodeId, Capacity>>)
    | Holding(req: Vec, candidates: seq<NodeId>, met: seq<map<NodeId, Capacity>>, node: NodeId)
    | Unplaced(req: Vec, candidates: seq<NodeId>, met: seq<map<NodeId, Capacity>>)

  /** `released` holds the pods whose capacity is given back but whose record is not yet deleted. */
  datatype World = World(
    nodes: map<NodeId, Capacity>, pods: map<PodKey, Pod>, released: set<PodKey>, threads: map<ThreadId, Thread>)

  datatype Step =
    | Begin(t: ThreadId, req: Vec, candidates: seq<NodeId>)  // any list at all: the read may be stale
    | Try(t: ThreadId)
    | GiveUp(t: ThreadId)
    | Write(t: ThreadId, dep: Deployment, id: PodId, now: string)
    | Rollback(t: ThreadId)
    | ReleasePod(key: PodKey)
    | DeletePod(key: PodKey)
    | StrayRelease(node: NodeId, amount: Vec)                // a double release by anyone
    | EvictOne(node: NodeId)

  ghost predicate Enabled(w: World, step: Step) {
    match step
    case Begin(t, req, _) => t in w.threads && !w.threads[t].Holding? && UNIT.Leq(req)
    case Try(t) => t in w.threads && w.threads[t].Trying? && |w.threads[t].met| < |w.threads[t].candidates|
    case GiveUp(t) => t in w.threads && w.threads[t].Trying? && |w.threads[t].met| == |w.threads[t].candidates|
    case Write(t, dep, id, _) =>
      t in w.threads && w.threads[t].Holding? && dep.request == w.threads[t].req && PodKey(dep.name, id) !in w.pods
    case Rollback(t) => t in w.threads && w.threads[t].Holding?
    case ReleasePod(k) => k in w.pods && k !in w.released && ConsumesCapacity(w.pods[k].status)
    case DeletePod(k) => k in w.pods && (k in w.released || w.pods[k].status == Evicted)
    case StrayRelease(_, amount) => ZERO.Leq(amount)
    case EvictOne(_) => true
  }

  function Next(w: World, step: Step): World
    requires Enabled(w, step)
  {
    match step
    case Begin(t, req, candidates) => w.(threads := w.threads[t := Trying(req, candidates, [])])
    case Try(t) =>
      var th := w.threads[t];
      var n, met := th.candidates[|th.met|], th.met + [w.nodes];
      if Accepts(w.nodes, n, th.req) then
        w.(nodes := Reserved(w.nodes, n, th.req), threads := w.threads[t := Holding(th.req, th.candidates, met, n)])
      else w.(threads := w.threads[t := Trying(th.req, th.candidates, met)])
    case GiveUp(t) =>
      var th := w.threads[t];
      w.(threads := w.threads[t := Unplaced(th.req, th.candidates, th.met)])
    case Write(t, dep, id, now) =>
      w.(pods := w.pods[PodKey(dep.name, id) := NewPod(dep, id, w.threads[t].node, now)],
         threads := w.threads[t := Idle])
    case Rollback(t) =>
      w.(nodes := Released(w.nodes, w.threads[t].node, w.threads[t].req), threads := w.threads[t := Idle])
    case ReleasePod(k) =>
      w.(nodes := Released(w.nodes, w.pods[k].nodeId, w.pods[k].request), released := w.released + {k})
    case DeletePod(k) => w.(pods := w.pods - {k}, released := w.released - {k})
    case StrayRelease(n, amount) => w.(nodes := Released(w.nodes, n, amount))
    case EvictOne(n) =>
      w.(pods := EvictPods(w.pods, {n}),
         nodes := if n in w.nodes then w.nodes[n := w.nodes[n].(alloc := ZERO)] else w.nodes)
  }

  ghost predicate IsRun(w: World, steps: seq<Step>)
    decreases |steps|
  {
    steps == [] || (Enabled(w, steps[0]) && IsRun(Next(w, steps[0]), steps[1..]))
  }

  ghost function After(w: World, steps: seq<Step>): World
    requires IsRun(w, steps)
    decreases |steps|
  {
    if steps == [] then w else After(Next(w, steps[0]), steps[1..])
  }

  // ----- counters stay in range, and candidates are tried in order -----

  ghost predicate InRange(w: World) {
    forall n :: n in w.nodes ==> ZERO.Leq(w.nodes[n].alloc) && w.nodes[n].alloc.Leq(w.nodes[n].total)
  }

  // Every candidate before the current one was refused at its own reserve, the chosen one accepted at its own, and a
  // thread gives up only when all were refused.
  ghost predicate TriedInOrder(th: Thread) {
    match th
    case Idle => true
    case Trying(req, candidates, met) =>
      |met| <= |candidates| && forall i :: 0 <= i < |met| ==> !Accepts(met[i], candidates[i], req)
    case Holding(req, candidates, met, node) =>
      && 0 < |met| <= |candidates| && node == candidates[|met| - 1] && Accepts(met[|met| - 1], node, req)
      && forall i :: 0 <= i < |met| - 1 ==> !Accepts(met[i], candidates[i], req)
    case Unplaced(req, candidates, met) =>
      |met| == |candidates| && forall i :: 0 <= i < |met| ==> !Accepts(met[i], candidates[i], req)
  }

  ghost predicate Sane(w: World) {
    && (forall k :: k in w.pods ==> UNIT.Leq(w.pods[k].request))
    && (forall t :: t in w.threads ==> TriedInOrder(w.threads[t]) && (w.threads[t].Idle? || UNIT.Leq(w.threads[t].req)))
    && w.released <= w.pods.Keys
  }

  lemma StepInRange(w: World, step: Step)
    requires InRange(w) && Sane(w) && Enabled(w, step)
    ensures InRange(Next(w, step))
  {
    hide TriedInOrder;
  }

  lemma StepSane(w: World, step: Step)
    requires Sane(w) && Enabled(w, step)
    ensures Sane(Next(w, step))
  {
    hide Accepts;
  }

  // In every interleaving, however stale the reads, 0 <= allocated <= total in both dimensions.
  lemma {:induction false} NeverOutOfRange(w: World, steps: seq<Step>)
    requires InRange(w) && Sane(w) && IsRun(w, steps)
    ensures InRange(After(w, steps)) && Sane(After(w, steps))
    decreases |steps|
  {
    hide InRange, Sane, Next, Enabled;
    if steps != [] {
      StepInRange(w, steps[0]);
      StepSane(w, steps[0]);
      NeverOutOfRange(Next(w, steps[0]), steps[1..]);
    }
  }

  // The node a racing scheduler ends up holding is the one Pick names for the capacities it met.
  lemma ChosenIsPicked(th: Thread, nodes: map<NodeId, Capacity>)
    requires TriedInOrder(th) && (th.Holding? || th.Unplaced?)
    ensures var j := Pick(th.candidates, nodes, th.met, th.req);
            if th.Holding? then j == |th.met| - 1 && th.candidates[j] == th.node else j == |th.candidates|
  {
    PickIsFirstAccepted(th.candidates, nodes, th.met, th.req);
    var j := Pick(th.candidates, nodes, th.met, th.req);
    assert forall i :: 0 <= i < |th.met| ==> Seen(nodes, th.met, i) == th.met[i];
  }

  // ----- what the counters stand for -----

  function HeldAt(threads: map<ThreadId, Thread>, t: ThreadId, n: NodeId): Vec {
    if t in threads && threads[t].Holding? && threads[t].node == n then threads[t].req else ZERO
  }

  // Reservations taken whose pod is not yet written.
  ghost function InFlight(threads: map<ThreadId, Thread>, n: NodeId): Vec {
    Vec(Sum(threads.Keys, t => HeldAt(threads, t, n).cpu), Sum(threads.Keys, t => HeldAt(threads, t, n).mem))
  }

  lemma InFlightChange(threads: map<ThreadId, Thread>, t: ThreadId, th: Thread, n: NodeId)
    requires t in threads
    ensures InFlight(threads[t := th], n).cpu
         == InFlight(threads, n).cpu - HeldAt(threads, t, n).cpu + HeldAt(threads[t := th], t, n).cpu
    ensures InFlight(threads[t := th], n).mem
         == InFlight(threads, n).mem - HeldAt(threads, t, n).mem + HeldAt(threads[t := th], t, n).mem
  {
    assert threads[t := th].Keys == threads.Keys;
    SumChange(threads.Keys, t, u => HeldAt(threads, u, n).cpu, u => HeldAt(threads[t := th], u, n).cpu);
    SumChange(threads.Keys, t, u => HeldAt(threads, u, n).mem, u => HeldAt(threads[t := th], u, n).mem);
  }

  lemma InFlightBounds(threads: map<ThreadId, Thread>, n: NodeId)
    requires forall t :: t in threads && threads[t].Holding? ==> ZERO.Leq(threads[t].req)
    ensures ZERO.Leq(InFlight(threads, n))
    ensures forall t :: t in threads ==> HeldAt(threads, t, n).Leq(InFlight(threads, n))
  {
    var cpu := (t: ThreadId) => HeldAt(threads, t, n).cpu;
    var mem := (t: ThreadId) => HeldAt(threads, t, n).mem;
    SumNonNegative(threads.Keys, cpu);
    SumNonNegative(threads.Keys, mem);
    forall t | t in threads
      ensures HeldAt(threads, t, n).Leq(InFlight(threads, n))
    {
      assert cpu(t) == HeldAt(threads, t, n).cpu && mem(t) == HeldAt(threads, t, n).mem;
    }
  }

  // Everything claimed on a node: pods not yet released, and reservations in flight.
  ghost function Claimed(w: World, n: NodeId): Vec {
    Vec(Demand(w.pods - w.released, n).cpu + InFlight(w.threads, n).cpu,
        Demand(w.pods - w.released, n).mem + InFlight(w.threads, n).mem)
  }

  // How one step moves the claims on a node.
  ghost function Claim(w: World, step: Step, n: NodeId): Vec
    requires Enabled(w, step)
  {
    match step
    case Try(t) =>
      var m := w.threads[t].candidates[|w.threads[t].met|];
      if n == m && Accepts(w.nodes, n, w.threads[t].req) then w.threads[t].req else ZERO
    case Rollback(t) => if n == w.threads[t].node then ZERO.Minus(w.threads[t].req) else ZERO
    case ReleasePod(k) => if n == w.pods[k].nodeId then ZERO.Minus(w.pods[k].request) else ZERO
    case _ => ZERO
  }

  lemma StepClaims(w: World, step: Step, n: NodeId)
    requires Sane(w) && Enabled(w, step) && !step.EvictOne?
    ensures Claimed(Next(w, step), n).cpu == Claimed(w, n).cpu + Claim(w, step, n).cpu
    ensures Claimed(Next(w, step), n).mem == Claimed(w, n).mem + Claim(w, step, n).mem
  {
    hide Demand, InFlight, TriedInOrder;
    var w' := Next(w, step);
    match step
    case Begin(t, req, candidates) => InFlightChange(w.threads, t, w'.threads[t], n);
    case Try(t) => InFlightChange(w.threads, t, w'.threads[t], n);
    case GiveUp(t) => InFlightChange(w.threads, t, w'.threads[t], n);
    case Write(t, dep, id, now) =>
      InFlightChange(w.threads, t, Idle, n);
      DemandChange(w.pods - w.released, w'.pods - w'.released, PodKey(dep.name, id), n);
    case Rollback(t) => InFlightChange(w.threads, t, Idle, n);
    case ReleasePod(k) => DemandChange(w.pods - w.released, w'.pods - w'.released, k, n);
    case DeletePod(k) => DemandChange(w.pods - w.released, w'.pods - w'.released, k, n);
    case StrayRelease(_, _) =>
  }

  ghost predicate Exact(w: World) { forall n :: n in w.nodes ==> w.nodes[n].alloc.Is(Claimed(w, n)) }

  ghost predicate NeverOver(w: World) { forall n :: n in w.nodes ==> w.nodes[n].alloc.Leq(Claimed(w, n)) }

  lemma ClaimsCoverEach(w: World, n: NodeId)
    requires Sane(w)
    ensures ZERO.Leq(Claimed(w, n))
    ensures forall t :: t in w.threads ==> HeldAt(w.threads, t, n).Leq(Claimed(w, n))
    ensures forall k :: k in w.pods && k !in w.released ==> Load(w.pods[k], n).Leq(Claimed(w, n))
  {
    hide TriedInOrder;
    DemandBounds(w.pods - w.released, n);
    InFlightBounds(w.threads, n);
  }

  predicate Disciplined(step: Step) { !step.EvictOne? && !step.StrayRelease? }

  lemma StepExact(w: World, step: Step)
    requires Exact(w) && Sane(w) && Enabled(w, step) && Disciplined(step)
    ensures Exact(Next(w, step))
  {
    hide Claimed, TriedInOrder, Sane;
    var w' := Next(w, step);
    forall n | n in w'.nodes
      ensures w'.nodes[n].alloc.Is(Claimed(w', n))
    {
      StepClaims(w, step, n);
      ClaimsCoverEach(w, n);
    }
  }

  lemma StepNeverOver(w: World, step: Step)
    requires NeverOver(w) && Sane(w) && Enabled(w, step)
    ensures NeverOver(Next(w, step))
  {
    hide Claimed, TriedInOrder;
    var w' := Next(w, step);
    StepSane(w, step);
    forall n | n in w'.nodes
      ensures w'.nodes[n].alloc.Leq(Claimed(w', n))
    {
      ClaimsCoverEach(w', n);
      if step.EvictOne? {
        EvictionElsewhere(w, step.node, n);
      } else {
        StepClaims(w, step, n);
      }
    }
  }

  lemma EvictionElsewhere(w: World, dead: NodeId, n: NodeId)
    ensures var w' := Next(w, EvictOne(dead));
            if n == dead then Claimed(w', n).Is(InFlight(w.threads, n)) else Claimed(w', n).Is(Claimed(w, n))
  {
    hide DemandOf, InFlight;
    var w' := Next(w, EvictOne(dead));
    var before, after := w.pods - w.released, w'.pods - w'.released;
    assert after.Keys == before.Keys;
    if n == dead {
      DemandNone(after, after.Keys, n);
    } else {
      DemandSame(before, after, before.Keys, n);
    }
  }

  // Without evictions and double releases, after every step each counter is exactly the unreleased pods plus the
  // reservations in flight, so what is claimed never exceeds what the node has.
  lemma {:induction false} ExactUnderInterleaving(w: World, steps: seq<Step>)
    requires Exact(w) && InRange(w) && Sane(w) && IsRun(w, steps)
    requires forall i :: 0 <= i < |steps| ==> Disciplined(steps[i])
    ensures Exact(After(w, steps))
    ensures forall n :: n in After(w, steps).nodes ==> Claimed(After(w, steps), n).Leq(After(w, steps).nodes[n].total)
    decreases |steps|
  {
    hide Sane, Next, Claimed, Enabled;
    if steps != [] {
      StepExact(w, steps[0]);
      StepSane(w, steps[0]);
      StepInRange(w, steps[0]);
      ExactUnderInterleaving(Next(w, steps[0]), steps[1..]);
    }
  }

  // With evictions and double releases too, a counter never exceeds the claims behind it.
  lemma {:induction false} NeverOverUnderInterleaving(w: World, steps: seq<Step>)
    requires NeverOver(w) && Sane(w) && IsRun(w, steps)
    ensures NeverOver(After(w, steps))
    decreases |steps|
  {
    hide Sane, Next, NeverOver, Enabled;
    if steps != [] {
      StepNeverOver(w, steps[0]);
      StepSane(w, steps[0]);
      NeverOverUnderInterleaving(Next(w, steps[0]), steps[1..]);
    }
  }

  // An eviction keeps the counters exact precisely when no scheduler holds a reservation on the node.
  lemma EvictionExactIff(w: World, n: NodeId)
    requires Exact(w) && Sane(w) && n in w.nodes
    ensures Exact(Next(w, EvictOne(n))) <==> !exists t :: t in w.threads && w.threads[t].Holding? && w.threads[t].node == n
  {
    hide Claimed, InFlight, TriedInOrder;
    var w' := Next(w, EvictOne(n));
    forall m | m in w'.nodes
      ensures w'.nodes[m].alloc.Is(Claimed(w', m)) <==> m != n || InFlight(w.threads, n).Is(ZERO)
    {
      EvictionElsewhere(w, n, m);
    }
    assert n in w'.nodes && (Exact(w') <==> InFlight(w.threads, n).Is(ZERO));
    InFlightBounds(w.threads, n);
    forall t | t in w.threads && w.threads[t].Holding? && w.threads[t].node == n
      ensures UNIT.Leq(InFlight(w.threads, n))
    {
      assert UNIT.Leq(HeldAt(w.threads, t, n));
    }
    if !exists t :: t in w.threads && w.threads[t].Holding? && w.threads[t].node == n {
      NoneHeld(w.threads, n);
    }
  }

  lemma NoneHeld(threads: map<ThreadId, Thread>, n: NodeId)
    requires forall t :: t in threads ==> HeldAt(threads, t, n) == ZERO
    ensures InFlight(threads, n).Is(ZERO)
  {
    NothingInFlight(threads, threads.Keys, n);
  }

  lemma {:induction false} NothingInFlight(threads: map<ThreadId, Thread>, keys: set<ThreadId>, n: NodeId)
    requires forall t :: t in keys ==> HeldAt(threads, t, n) == ZERO
    ensures Sum(keys, t => HeldAt(threads, t, n).cpu) == 0 && Sum(keys, t => HeldAt(threads, t, n).mem) == 0
    decreases |keys|
  {
    if keys != {} {
      var t :| t in keys;
      SumSplit(keys, t, u => HeldAt(threads, u, n).cpu);
      SumSplit(keys, t, u => HeldAt(threads, u, n).mem);
      NothingInFlight(threads, keys - {t}, n);
    }
  }

  // The range of the counters alone does not bound the pods: whenever a node is evicted while a scheduler holds a
  // reservation on it, the next scheduler is granted the whole node and the claims exceed its size.
  lemma EvictionRaceOversubscribes(w: World, n: NodeId, t: ThreadId, u: ThreadId)
    requires InRange(w) && Sane(w) && n in w.nodes && UNIT.Leq(w.nodes[n].total)
    requires t in w.threads && w.threads[t].Holding? && w.threads[t].node == n
    requires u in w.threads && !w.threads[u].Holding?
    ensures var race := [EvictOne(n), Begin(u, w.nodes[n].total, [n]), Try(u)];
            IsRun(w, race) && !Claimed(After(w, race), n).Leq(w.nodes[n].total)
  {
    hide Claimed, TriedInOrder;
    var total := w.nodes[n].total;
    var race := [EvictOne(n), Begin(u, total, [n]), Try(u)];
    var w1 := Next(w, race[0]);
    var w2 := Next(w1, race[1]);
    StepSane(w, race[0]);
    StepSane(w1, race[1]);
    EvictionElsewhere(w, n, n);
    ClaimsCoverEach(w1, n);
    assert HeldAt(w1.threads, t, n) == w.threads[t].req;
    StepClaims(w1, race[1], n);
    StepClaims(w2, race[2], n);
    var w3 := Next(w2, race[2]);
    assert race[1..] == [race[1], race[2]] && race[1..][1..] == [race[2]] && race[1..][1..][1..] == [];
    assert IsRun(w3, []) && IsRun(w2, [race[2]]) && IsRun(w1, race[1..]);
    assert After(w1, race[1..]) == After(w2, [race[2]]) == w3;
  }
}
