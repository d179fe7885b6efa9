/** The two scripts that move a node's allocation (internal/capacity/capacity.go). */
module CapacityScripts {
  import opened Schema
  import opened Store

  // Whether the reserve script accepts a request.
  predicate Accepts(nodes: map<NodeId, Capacity>, n: NodeId, req: Vec) {
    n in nodes && nodes[n].Fits(req)
  }

  function Reserved(nodes: map<NodeId, Capacity>, n: NodeId, req: Vec): map<NodeId, Capacity> {
    if Accepts(nodes, n, req) then nodes[n := nodes[n].(alloc := nodes[n].alloc.Plus(req))] else nodes
  }

  function Released(nodes: map<NodeId, Capacity>, n: NodeId, amount: Vec): map<NodeId, Capacity> {
    if n in nodes then nodes[n := nodes[n].(alloc := nodes[n].alloc.Minus(amount).Clamped())] else nodes
  }

  method Reserve(c: Redis, n: NodeId, req: Vec) returns (ok: bool)
    modifies c`nodes
    ensures ok == Accepts(old(c.nodes), n, req) && c.nodes == Reserved(old(c.nodes), n, req)
  {
    if n !in c.nodes {
      return false;
    }
    var cap := c.nodes[n];
    if cap.total.cpu - cap.alloc.cpu < req.cpu || cap.total.mem - cap.alloc.mem < req.mem {
      return false;
    }
    c.nodes := c.nodes[n := cap.(alloc := Vec(cap.alloc.cpu + req.cpu, cap.alloc.mem + req.mem))];
    ok := true;
  }

  method Release(c: Redis, n: NodeId, amount: Vec)
    modifies c`nodes
    ensures c.nodes == Released(old(c.nodes), n, amount)
  {
    if n !in c.nodes {
      return;
    }
    var cap := c.nodes[n];
    var cpu, mem := cap.alloc.cpu - amount.cpu, cap.alloc.mem - amount.mem;
    if cpu < 0 { cpu := 0; }
    if mem < 0 { mem := 0; }
    c.nodes := c.nodes[n := cap.(alloc := Vec(cpu, mem))];
  }

  // A counter that never went negative comes back exactly when a reservation is rolled back.
  lemma RollbackRestores(nodes: map<NodeId, Capacity>, n: NodeId, req: Vec)
    requires Accepts(nodes, n, req) && ZERO.Leq(nodes[n].alloc)
    ensures Released(Reserved(nodes, n, req), n, req) == nodes
  {
    var back := nodes[n].alloc.Plus(req).Minus(req).Clamped();
    assert back == nodes[n].alloc;
  }
}
