/** Placing many replicas: how many a cluster can take, and that best fit places exactly that many. */
module Placement {
  import opened Arithmetic
  import opened Collections
  import opened Schema
  import opened Store
  import opened CapacityScripts
  import opened Scheduler

  // ----- one placement without rivals -----

  ghost predicate CanPlace(s: State, req: Vec) { Fitting(s, req) != {} }

  ghost function Best(s: State, req: Vec): NodeId
    requires CanPlace(s, req)
  {
    ScanLength(BestFit(s, req), Fitting(s, req));
    BestFit(s, req)[0]
  }

  // The tightest fit, ties going to the smaller node id.
  lemma BestIsTightest(s: State, req: Vec)
    requires CanPlace(s, req)
    ensures Best(s, req) in Fitting(s, req)
    ensures forall m :: m in Fitting(s, req) && m != Best(s, req) ==> FitLeq(s.nodes, req)(Best(s, req), m)
  {
    var candidates := BestFit(s, req);
    ScanLength(candidates, Fitting(s, req));
    assert candidates[0] in Elements(candidates);
    assert forall m :: m in Fitting(s, req) ==> m in candidates;
  }

  function PlaceOn(s: State, dep: Deployment, id: PodId, n: NodeId, now: string): State {
    Bind(s.(nodes := Reserved(s.nodes, n, dep.request)), dep, id, n, now, true)
  }

  // Without rivals the first candidate is always accepted.
  lemma PlaceOne(s: State, dep: Deployment, id: PodId, now: string, fault: Fault)
    ensures ScheduleOneSpec(s, [], dep, id, now, fault)
         == if !CanPlace(s, dep.request) then (s, NothingFits)
            else
              var n := Best(s, dep.request);
              var held := Reserved(s.nodes, n, dep.request);
              if fault.PodIdFails? || fault.PodWriteFails? then
                (s.(nodes := Released(held, n, dep.request)), Faulted)
              else (Bind(s.(nodes := held), dep, id, n, now, !fault.DispatchFails?), Created(id))
  {
    var candidates := BestFit(s, dep.request);
    ScanLength(candidates, Fitting(s, dep.request));
    if CanPlace(s, dep.request) {
      assert candidates[0] in Elements(candidates);
    }
  }

  // ----- ScheduleReplicas -----

  ghost function ScheduleMany(s: State, dep: Deployment, count: int, ids: seq<PodId>, now: string): (State, seq<PodId>)
    requires |ids| >= count
    decreases if count < 0 then 0 else count
  {
    if count <= 0 || !CanPlace(s, dep.request) then (s, [])
    else
      var r := ScheduleMany(PlaceOn(s, dep, ids[0], Best(s, dep.request), now), dep, count - 1, ids[1..], now);
      (r.0, [ids[0]] + r.1)
  }

  // The rest of a batch after one more replica, or none if it fits nowhere.
  lemma ScheduleManyStep(s: State, dep: Deployment, count: int, ids: seq<PodId>, i: nat, now: string)
    requires i < count <= |ids|
    ensures var (s', r) := ScheduleOneSpec(s, [], dep, ids[i], now, NoFault);
            var all := ScheduleMany(s, dep, count - i, ids[i..], now);
            && s'.registry == s.registry
            && if r.Created? then
                 var rest := ScheduleMany(s', dep, count - (i + 1), ids[i + 1..], now);
                 all.0 == rest.0 && all.1 == [ids[i]] + rest.1
               else s' == s && all == (s, [])
  {
    hide Best, CanPlace, ScheduleOneSpec, Reserved;
    PlaceOne(s, dep, ids[i], now, NoFault);
    assert ids[i..][1..] == ids[i + 1..];
  }

  method ScheduleReplicas(c: Redis, order: seq<NodeId>, dep: Deployment, count: int, ids: seq<PodId>, now: string)
    returns (created: seq<PodId>)
    requires IsScan(order, c.registry) && |ids| >= count
    modifies c`nodes, c`pods, c`queues
    ensures c.View() == ScheduleMany(old(c.View()), dep, count, ids, now).0
    ensures created == ScheduleMany(old(c.View()), dep, count, ids, now).1
  {
    hide Best, CanPlace, ScheduleOneSpec, ScheduleMany;
    created := [];
    if count <= 0 {
      NoneScheduled(c.View(), dep, count, ids, now);
      return;
    }
    ghost var goal := ScheduleMany(c.View(), dep, count, ids, now);
    assert ids[0..] == ids;
    for i := 0 to count
      invariant IsScan(order, c.registry)
      invariant goal.0 == ScheduleMany(c.View(), dep, count - i, ids[i..], now).0
      invariant goal.1 == created + ScheduleMany(c.View(), dep, count - i, ids[i..], now).1
    {
      ScheduleManyStep(c.View(), dep, count, ids, i, now);
      var r := ScheduleOne(c, order, [], dep, ids[i], now, NoFault);
      if !r.Created? {
        return;
      }
      AppendThen(created, ids[i], ScheduleMany(c.View(), dep, count - (i + 1), ids[i + 1..], now).1);
      created := created + [ids[i]];
    }
    NoneScheduled(c.View(), dep, 0, ids[count..], now);
  }

  lemma NoneScheduled(s: State, dep: Deployment, count: int, ids: seq<PodId>, now: string)
    requires count <= 0
    ensures ScheduleMany(s, dep, count, ids, now) == (s, [])
  {
  }

  // ----- how many replicas fit -----

  function Slots(cap: Capacity, req: Vec): nat
    requires UNIT.Leq(req)
  {
    if cap.Fits(req) then Min(cap.Free().cpu / req.cpu, cap.Free().mem / req.mem) else 0
  }

  function SlotsAt(s: State, req: Vec): NodeId -> nat {
    n => if n in s.nodes && UNIT.Leq(req) then Slots(s.nodes[n], req) else 0
  }

  ghost function TotalSlots(s: State, req: Vec): int { Sum(Live(s), SlotsAt(s, req)) }

  lemma QuotientDrops(f: int, c: int)
    requires f >= c >= 1
    ensures (f - c) / c == f / c - 1 && f / c >= 1
  {
    var q, r := f / c, f % c;
    assert f - c == (q - 1) * c + r;
    QuotientUnique(f - c, c, q - 1, r);
    assert q * c + r >= c;
  }

  lemma SlotsDrop(nodes: map<NodeId, Capacity>, n: NodeId, req: Vec)
    requires UNIT.Leq(req) && Accepts(nodes, n, req)
    ensures Slots(nodes[n], req) >= 1
    ensures Slots(Reserved(nodes, n, req)[n], req) == Slots(nodes[n], req) - 1
  {
    var free := nodes[n].Free();
    QuotientDrops(free.cpu, req.cpu);
    QuotientDrops(free.mem, req.mem);
    var after := Reserved(nodes, n, req)[n].Free();
    assert after.cpu == free.cpu - req.cpu && after.mem == free.mem - req.mem;
    if after.cpu < req.cpu {
      assert after.cpu / req.cpu == 0;
    }
    if after.mem < req.mem {
      assert after.mem / req.mem == 0;
    }
  }

  lemma PlacementTakesOneSlot(s: State, dep: Deployment, id: PodId, n: NodeId, now: string)
    requires UNIT.Leq(dep.request) && n in Fitting(s, dep.request)
    ensures TotalSlots(PlaceOn(s, dep, id, n, now), dep.request) == TotalSlots(s, dep.request) - 1
  {
    var s' := PlaceOn(s, dep, id, n, now);
    SlotsDrop(s.nodes, n, dep.request);
    SumChange(Live(s), n, SlotsAt(s, dep.request), SlotsAt(s', dep.request));
  }

  lemma NoSlotsWithoutRoom(s: State, req: Vec)
    requires UNIT.Leq(req)
    ensures TotalSlots(s, req) >= 0
    ensures TotalSlots(s, req) == 0 <==> !CanPlace(s, req)
  {
    var f := SlotsAt(s, req);
    SumNonNegative(Live(s), f);
    if CanPlace(s, req) {
      var n :| n in Fitting(s, req);
      SlotsDrop(s.nodes, n, req);
    } else {
      forall n | n in Live(s)
        ensures f(n) == 0
      {
        assert n !in Fitting(s, req);
      }
      SumSame(Live(s), f, n => 0);
      SumZero(Live(s));
    }
  }

  lemma {:induction false} SumZero(keys: set<NodeId>)
    ensures Sum<NodeId>(keys, n => 0) == 0
    decreases |keys|
  {
    if keys != {} {
      var k :| k in keys;
      SumSplit(keys, k, n => 0);
      SumZero(keys - {k});
    }
  }

  // Any way of placing replicas one after another, each on a live node that accepts it.
  ghost predicate Placeable(s: State, dep: Deployment, ids: seq<PodId>, choice: seq<NodeId>, now: string)
    requires |ids| == |choice|
    decreases |choice|
  {
    choice != [] ==>
      && choice[0] in Fitting(s, dep.request)
      && Placeable(PlaceOn(s, dep, ids[0], choice[0], now), dep, ids[1..], choice[1..], now)
  }

  // No strategy places more replicas than there are slots.
  lemma {:induction false} SlotsBoundEveryPlacement(s: State, dep: Deployment, ids: seq<PodId>, choice: seq<NodeId>,
                                                    now: string)
    requires UNIT.Leq(dep.request) && |ids| == |choice| && Placeable(s, dep, ids, choice, now)
    ensures |choice| <= TotalSlots(s, dep.request)
    decreases |choice|
  {
    NoSlotsWithoutRoom(s, dep.request);
    if choice != [] {
      PlacementTakesOneSlot(s, dep, ids[0], choice[0], now);
      SlotsBoundEveryPlacement(PlaceOn(s, dep, ids[0], choice[0], now), dep, ids[1..], choice[1..], now);
    }
  }

  // Best fit reaches that bound, up to the count asked for, so giving up at the first replica that fits nowhere
  // loses nothing.
  lemma {:induction false} PlacementIsMaximal(s: State, dep: Deployment, count: int, ids: seq<PodId>, now: string)
    requires UNIT.Leq(dep.request) && 0 <= count <= |ids|
    ensures TotalSlots(s, dep.request) >= 0
    ensures ScheduleMany(s, dep, count, ids, now).1 == ids[..Min(count, TotalSlots(s, dep.request))]
    decreases count
  {
    hide Best, CanPlace, TotalSlots;
    NoSlotsWithoutRoom(s, dep.request);
    if count > 0 {
      if CanPlace(s, dep.request) {
        var n := Best(s, dep.request);
        BestIsTightest(s, dep.request);
        PlacementTakesOneSlot(s, dep, ids[0], n, now);
        var s' := PlaceOn(s, dep, ids[0], n, now);
        PlacementIsMaximal(s', dep, count - 1, ids[1..], now);
        var m := Min(count - 1, TotalSlots(s', dep.request));
        assert [ids[0]] + ids[1..][..m] == ids[..m + 1];
      }
    }
  }
}
