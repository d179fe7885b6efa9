/** The records every component reads and writes (internal/schema/schema.go). */
module Schema {

  type NodeId = string
  type PodId = string

  /** CPU millicores and memory megabytes, always checked and moved together. */
  datatype Vec = Vec(cpu: int, mem: int) {
    function Plus(o: Vec): Vec { Vec(cpu + o.cpu, mem + o.mem) }
    function Minus(o: Vec): Vec { Vec(cpu - o.cpu, mem - o.mem) }
    // Equality one dimension at a time.
    predicate Is(o: Vec) { cpu == o.cpu && mem == o.mem }
    predicate Leq(o: Vec) { cpu <= o.cpu && mem <= o.mem }
    // The zero clamp of the release script.
    function Clamped(): Vec { Vec(if cpu < 0 then 0 else cpu, if mem < 0 then 0 else mem) }
  }

  const ZERO := Vec(0, 0)
  // Every validated request asks for at least this much.
  const UNIT := Vec(1, 1)

  datatype Capacity = Capacity(total: Vec, alloc: Vec) {
    function Free(): Vec { total.Minus(alloc) }
    predicate Fits(req: Vec) { req.Leq(Free()) }
  }

  datatype Status = Pending | Running | Failed | Evicted | CrashLoopBackOff | Unschedulable

  // Only eviction gives a reservation back without removing the pod.
  predicate ConsumesCapacity(status: Status) { status != Evicted }

  datatype PodKey = PodKey(deployment: string, podId: PodId)

  /** A pod hash. Absent numeric fields read as 0, as the schema's conversions do. */
  datatype Pod = Pod(
    deployment: string, podId: PodId, status: Status, nodeId: NodeId, request: Vec, createdAt: string,
    pid: int, pidStart: nat, hostPort: int,
    restartCount: int, failures: int, backoffSeconds: int, lastRestartAt: int)

  datatype Deployment = Deployment(
    name: string, minReplicas: int, maxReplicas: int, desired: int, target: int,
    request: Vec, port: int, lastScaleUpAt: int, lastScaleDownAt: int)

  datatype Command = StartPod(key: PodKey) | StopPod(key: PodKey)
}
