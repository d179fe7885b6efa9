/** Best-fit placement (internal/scheduler/scheduler.go). */
module Scheduler {
  import opened Collections
  import opened Schema
  import opened Store
  import opened CapacityScripts

  // Work goes only to nodes that are both registered and holding a lease.
  function Live(s: State): set<NodeId> { s.registry * s.leases }

  function Fitting(s: State, req: Vec): set<NodeId> {
    set n | n in Live(s) && Accepts(s.nodes, n, req)
  }

  // ----- the best-fit order -----

  function Share(left: int, total: int): real {
    if total > 0 then left as real / total as real else 0.0
  }

  // Leftover after placement, each dimension relative to the node's size.
  function Score(nodes: map<NodeId, Capacity>, req: Vec, n: NodeId): real {
    if n in nodes then
      var left := nodes[n].Free().Minus(req);
      Share(left.cpu, nodes[n].total.cpu) + Share(left.mem, nodes[n].total.mem)
    else 0.0
  }

  function FitLeq(nodes: map<NodeId, Capacity>, req: Vec): (NodeId, NodeId) -> bool {
    (a, b) =>
      if Score(nodes, req, a) != Score(nodes, req, b) then Score(nodes, req, a) < Score(nodes, req, b)
      else StringLeq(a, b)
  }

  lemma FitTotallyOrders(nodes: map<NodeId, Capacity>, req: Vec, elems: set<NodeId>)
    ensures TotalOrderOn(FitLeq(nodes, req), elems)
  {
    StringsTotallyOrdered(elems);
  }

  lemma ShareMonotone(a: int, b: int, total: int)
    requires total > 0
    ensures a <= b ==> Share(a, total) <= Share(b, total)
    ensures a < b ==> Share(a, total) < Share(b, total)
  {
    var d := 1.0 / total as real;
    assert Share(a, total) == a as real * d && Share(b, total) == b as real * d && d > 0.0;
    assert a <= b ==> (b as real - a as real) * d >= 0.0;
    assert a < b ==> (b as real - a as real) * d > 0.0;
  }

  // Of two nodes of the same size, the one with less room in either dimension and no more in the other comes first,
  // whatever their ids.
  lemma TighterComesFirst(nodes: map<NodeId, Capacity>, req: Vec, a: NodeId, b: NodeId)
    requires a in nodes && b in nodes && nodes[a].total == nodes[b].total && UNIT.Leq(nodes[a].total)
    requires nodes[a].Free().Leq(nodes[b].Free()) && !nodes[b].Free().Leq(nodes[a].Free())
    ensures FitLeq(nodes, req)(a, b) && !FitLeq(nodes, req)(b, a)
  {
    var x, y, total := nodes[a].Free().Minus(req), nodes[b].Free().Minus(req), nodes[a].total;
    ShareMonotone(x.cpu, y.cpu, total.cpu);
    ShareMonotone(x.mem, y.mem, total.mem);
    assert x.cpu < y.cpu || x.mem < y.mem;
    assert Score(nodes, req, a) < Score(nodes, req, b);
  }

  lemma ShareScales(left: int, total: int, k: int)
    requires total > 0 && k > 0
    ensures Share(k * left, k * total) == Share(left, total)
  {
    var q := Share(left, total);
    assert q * total as real == left as real;
    assert (k * left) as real == k as real * left as real && (k * total) as real == k as real * total as real;
    assert q * (k as real * total as real) == k as real * left as real;
  }

  // Size alone gives no advantage: a node k times as large with k times as much left over scores the same.
  lemma ScoreIsRelative(nodes: map<NodeId, Capacity>, req: Vec, a: NodeId, b: NodeId, k: int)
    requires a in nodes && b in nodes && k > 0 && UNIT.Leq(nodes[a].total)
    requires nodes[b].total.cpu == k * nodes[a].total.cpu && nodes[b].total.mem == k * nodes[a].total.mem
    requires nodes[b].Free().Minus(req).cpu == k * nodes[a].Free().Minus(req).cpu
    requires nodes[b].Free().Minus(req).mem == k * nodes[a].Free().Minus(req).mem
    ensures Score(nodes, req, a) == Score(nodes, req, b)
  {
    hide Share;
    ShareScales(nodes[a].Free().Minus(req).cpu, nodes[a].total.cpu, k);
    ShareScales(nodes[a].Free().Minus(req).mem, nodes[a].total.mem, k);
  }

  // CPU and memory weigh the same: a node with the two leftover shares exchanged scores the same.
  lemma ScoreIsEven(nodes: map<NodeId, Capacity>, req: Vec, a: NodeId, b: NodeId)
    requires a in nodes && b in nodes
    requires nodes[b].total.cpu == nodes[a].total.mem && nodes[b].total.mem == nodes[a].total.cpu
    requires nodes[b].Free().Minus(req).cpu == nodes[a].Free().Minus(req).mem
    requires nodes[b].Free().Minus(req).mem == nodes[a].Free().Minus(req).cpu
    ensures Score(nodes, req, a) == Score(nodes, req, b)
  {
    hide Share;
  }

  // Equal scores are settled by the node id, the smaller first.
  lemma TiesGoToSmallerId(nodes: map<NodeId, Capacity>, req: Vec, a: NodeId, b: NodeId)
    requires Score(nodes, req, a) == Score(nodes, req, b) && StringLess(a, b)
    ensures FitLeq(nodes, req)(a, b) && !FitLeq(nodes, req)(b, a)
  {
    hide Score;
    StringTrichotomy(a, b);
  }

  ghost predicate IsBestFit(s: State, req: Vec, candidates: seq<NodeId>) {
    IsScan(candidates, Fitting(s, req)) && SortedBy(candidates, FitLeq(s.nodes, req))
  }

  // The registry's order leaves no trace in the candidate list.
  lemma BestFitUnique(s: State, req: Vec, a: seq<NodeId>, b: seq<NodeId>)
    requires IsBestFit(s, req, a) && IsBestFit(s, req, b)
    ensures a == b
  {
    DistinctMultisets(a, b, Fitting(s, req));
    FitTotallyOrders(s.nodes, req, Elements(a));
    SortedUnique(a, b, FitLeq(s.nodes, req));
  }

  method LiveNodes(c: Redis, order: seq<NodeId>) returns (live: seq<NodeId>)
    requires IsScan(order, c.registry)
    ensures IsScan(live, Live(c.View())) && SortedBy(live, StringLeq)
  {
    live := [];
    for i := 0 to |order|
      invariant IsScan(live, Elements(order[..i]) * c.leases)
    {
      ScanPrefix(order, c.registry, i);
      if order[i] in c.leases {
        ScanExtend(live, Elements(order[..i]) * c.leases, order[i]);
        live := live + [order[i]];
      }
    }
    assert order[..|order|] == order && Elements(order) * c.leases == Live(c.View());
    StringsTotallyOrdered(Live(c.View()));
    SortKeepsScan(live, Live(c.View()), StringLeq);
    live := SortBy(live, StringLeq);
  }

  method BestFitOrder(c: Redis, order: seq<NodeId>, req: Vec) returns (candidates: seq<NodeId>)
    requires IsScan(order, c.registry)
    ensures IsBestFit(c.View(), req, candidates)
  {
    var live := LiveNodes(c, order);
    candidates := [];
    for i := 0 to |live|
      invariant IsScan(candidates, Elements(live[..i]) * Fitting(c.View(), req))
    {
      var n := live[i];
      ScanPrefix(live, Live(c.View()), i);
      assert n in Live(c.View());
      if n !in c.nodes { continue; }
      if c.nodes[n].total.cpu - c.nodes[n].alloc.cpu < req.cpu { continue; }
      if c.nodes[n].total.mem - c.nodes[n].alloc.mem < req.mem { continue; }
      ScanExtend(candidates, Elements(live[..i]) * Fitting(c.View(), req), n);
      candidates := candidates + [n];
    }
    assert live[..|live|] == live && Elements(live) * Fitting(c.View(), req) == Fitting(c.View(), req);
    FitTotallyOrders(c.nodes, req, Fitting(c.View(), req));
    SortKeepsScan(candidates, Fitting(c.View(), req), FitLeq(c.nodes, req));
    candidates := SortBy(candidates, FitLeq(c.nodes, req));
  }

  lemma BestFitExists(s: State, req: Vec)
    ensures exists candidates :: IsBestFit(s, req, candidates)
  {
    ScanExists(Fitting(s, req));
    var scan: seq<NodeId> :| IsScan(scan, Fitting(s, req));
    FitTotallyOrders(s.nodes, req, Fitting(s, req));
    SortKeepsScan(scan, Fitting(s, req), FitLeq(s.nodes, req));
    assert IsBestFit(s, req, SortBy(scan, FitLeq(s.nodes, req)));
  }

  ghost function BestFit(s: State, req: Vec): (candidates: seq<NodeId>)
    ensures IsBestFit(s, req, candidates)
  {
    BestFitExists(s, req);
    var candidates :| IsBestFit(s, req, candidates); candidates
  }

  // ----- placing one replica -----

  /** What can go wrong after the reservation is committed. */
  datatype Fault = NoFault | PodIdFails | PodWriteFails | DispatchFails

  datatype Outcome = Created(podId: PodId) | NothingFits | Faulted

  // The capacities the i-th reserve meets: rivals may have moved them since the candidates were read.
  function Seen(nodes: map<NodeId, Capacity>, rivals: seq<map<NodeId, Capacity>>, i: nat): map<NodeId, Capacity> {
    if i < |rivals| then rivals[i] else if |rivals| > 0 then rivals[|rivals| - 1] else nodes
  }

  // The first candidate accepted at its own reserve, or the end of the list.
  function Pick(candidates: seq<NodeId>, nodes: map<NodeId, Capacity>, rivals: seq<map<NodeId, Capacity>>, req: Vec,
                i: nat := 0): nat
    requires i <= |candidates|
    decreases |candidates| - i
  {
    if i == |candidates| || Accepts(Seen(nodes, rivals, i), candidates[i], req) then i
    else Pick(candidates, nodes, rivals, req, i + 1)
  }

  lemma {:induction false} PickIsFirstAccepted(candidates: seq<NodeId>, nodes: map<NodeId, Capacity>,
                                               rivals: seq<map<NodeId, Capacity>>, req: Vec, i: nat := 0)
    requires i <= |candidates|
    ensures var j := Pick(candidates, nodes, rivals, req, i);
            && i <= j <= |candidates|
            && (forall k :: i <= k < j ==> !Accepts(Seen(nodes, rivals, k), candidates[k], req))
            && (j < |candidates| ==> Accepts(Seen(nodes, rivals, j), candidates[j], req))
    decreases |candidates| - i
  {
    if i < |candidates| && !Accepts(Seen(nodes, rivals, i), candidates[i], req) {
      PickIsFirstAccepted(candidates, nodes, rivals, req, i + 1);
    }
  }

  function NewPod(dep: Deployment, id: PodId, n: NodeId, now: string): Pod {
    Pod(dep.name, id, Pending, n, dep.request, now, 0, 0, 0, 0, 0, 0, 0)
  }

  // A pod recorded against a reservation already taken, and its node told to start it.
  function Bind(s: State, dep: Deployment, id: PodId, n: NodeId, now: string, dispatched: bool): State {
    var key := PodKey(dep.name, id);
    var s' := s.(pods := s.pods[key := NewPod(dep, id, n, now)]);
    if dispatched then Enqueue(s', n, StartPod(key)) else s'
  }

  ghost function ScheduleOneSpec(s: State, rivals: seq<map<NodeId, Capacity>>, dep: Deployment, id: PodId, now: string,
                                 fault: Fault): (State, Outcome)
  {
    var candidates := BestFit(s, dep.request);
    PickIsFirstAccepted(candidates, s.nodes, rivals, dep.request);
    var j := Pick(candidates, s.nodes, rivals, dep.request);
    if j == |candidates| then
      (if j == 0 then s else s.(nodes := Seen(s.nodes, rivals, j - 1)), NothingFits)
    else
      var n := candidates[j];
      var held := Reserved(Seen(s.nodes, rivals, j), n, dep.request);
      if fault.PodIdFails? || fault.PodWriteFails? then
        (s.(nodes := Released(held, n, dep.request)), Faulted)
      else
        (Bind(s.(nodes := held), dep, id, n, now, !fault.DispatchFails?), Created(id))
  }

  method ScheduleOne(c: Redis, order: seq<NodeId>, rivals: seq<map<NodeId, Capacity>>, dep: Deployment, id: PodId,
                     now: string, fault: Fault) returns (r: Outcome)
    requires IsScan(order, c.registry)
    modifies c`nodes, c`pods, c`queues
    ensures (c.View(), r) == ScheduleOneSpec(old(c.View()), rivals, dep, id, now, fault)
  {
    hide IsBestFit, IsScan, Accepts, Released, Fitting;
    ghost var s := c.View();
    var candidates := BestFitOrder(c, order, dep.request);
    BestFitUnique(s, dep.request, candidates, BestFit(s, dep.request));
    PickIsFirstAccepted(candidates, s.nodes, rivals, dep.request);
    for i := 0 to |candidates|
      invariant c.View() == if i == 0 then s else s.(nodes := Seen(s.nodes, rivals, i - 1))
      invariant Pick(candidates, s.nodes, rivals, dep.request) == Pick(candidates, s.nodes, rivals, dep.request, i)
    {
      if i < |rivals| {
        c.nodes := rivals[i];
      }
      var n := candidates[i];
      var reserved := Reserve(c, n, dep.request);
      if !reserved {
        continue;
      }
      if fault.PodIdFails? || fault.PodWriteFails? {
        Release(c, n, dep.request);
        return Faulted;
      }
      var key := PodKey(dep.name, id);
      c.pods := c.pods[key := NewPod(dep, id, n, now)];
      if !fault.DispatchFails? {
        c.Push(n, StartPod(key));
      }
      return Created(id);
    }
    r := NothingFits;
  }
}
