# A verified model of the mini-k8s control plane

mini-k8s is a small orchestrator whose components share nothing but a Redis store. A scheduler reserves node capacity
and records pods, controllers evict dead nodes and keep replica counts, an autoscaler moves the wanted counts, agents
run the processes, an ingress controller writes the router's file and a dashboard streams state. Each of them argues
for its correctness from atomic scripts, the order of its writes, deterministic choices and re-derivation from
records. This project models those steps and proves the arguments over every run, in Dafny 4.11.

`dafny verify dfyconfig.toml` checks everything.

## How the model is laid out

- `Schema`, `Store`: the records; the store as a value (`State`) and as the object the components mutate (`Redis`).
- `Capacity`, `Scheduler`, `Placement`: the reserve and release scripts, best fit, placing many replicas.
- `Membership`, `Ledger`: registration and eviction; the exact ledger over runs of whole operations.
- `Replica`, `Consumer`, `ScaleDown`, `Recovery`, `Cluster`, `Fleet`, `Repair`, `Deletion`: reconciling a deployment, the
  command queues, asynchronous removal, recovery from node failure, runs of the whole control plane, full reconciles,
  histories in which counters drift, and deployments that were deleted.
- `Interleaving`: schedulers, removers and evictions interleaved one script at a time.
- `Ports`, `Agent`, `Adoption`, `Supervisor`, `Health`: host ports, processes and their identity, startup, probing and
  restarts.
- `Autoscale`, `Scaling`, `StaleEdits`, `SteadyLoad`: the two telemetry averages; the decision script, spec edits and
  manual scaling over time; edits that are not atomic; behaviour under constant load.
- `Text`, `Ingress`, `Routing`, `Reloading`: the rendered file, a parser for it, the rule that skips a rewrite, and what
  the router has loaded over runs.
- `LogCursor`, `Lease`: the dashboard's log cursor and the liveness lease.
- `Arithmetic`, `Collections`: integer division, sums over sets, sorting, string order.

An operation that mutates the store is a method on `Redis` (or on `Supervisor`, `PodRecord`, `DeploymentStore`,
`Controller`) whose postcondition equates the new state with a function of the old one; the theorems are about those
functions. A step relation with its runs (`Step`, `Enabled`, `Next`, `IsRun`, `After`, or the same under local names)
closes each protocol. Whole operations are atomic in `Ledger`, `Cluster`, `ScaleDown`, `Agent` and `Health`; in
`Interleaving` only the scripts are. `IsScan` says that a key scan returns each key once, in any order.

## Where the code departs from what it says

- A crash between releasing capacity and deleting the pod leaves the counter too low, not too high as
  `internal/supervisor/consumer.go:93-96` and `internal/controller/replica.go:373-375` say
  (`Ledger.CrashMidRemovalUndercounts`).
- The lease check tolerates one missed refresh; the comment at `internal/node/node.go:46` says two
  (`Lease.AcceptedToleratesOne`).
- A start command left in a queue can run an Evicted pod without a reservation (`Cluster.DrainSafeIff`,
  `Cluster.LeftoverStartBreaksLedger`).
- An eviction that overtakes a scheduler between its reserve and its pod write lets the node be oversubscribed, although
  every counter stays in range (`Interleaving.EvictionExactIff`, `Interleaving.EvictionRaceOversubscribes`).
- An edit reads the deployment and writes it later; if the autoscaler acted in between, an old cooldown stamp can come
  back (`StaleEdits.LateWriteSafeIff`, `StaleEdits.StaleEditBreaksCooldown`). A manual scale clamps to the bounds it read
  (`Scaling.StaleManualScaleIff`).
- A reload that failed is not tried again while the backends stay the same (`Reloading.FailedReloadIsForgotten`).
- Restart stamps drop the fraction of a second, so on the wall clock a restart may come that much early
  (`Health.EarliestRestart`).
- Under constant load the replica count may alternate for ever (`SteadyLoad.AlternatesIff`, `SteadyLoad.LoadOf104Alternates`).

## Model

| member | source | states |
|---|---|---|
| CapacityScripts.Reserve | internal/capacity/capacity.go:33-66 | accepts exactly when the node exists and both dimensions fit, then adds both; otherwise nothing changes |
| CapacityScripts.Release | internal/capacity/capacity.go:73-95 | subtracts both dimensions, each clamped at zero; an unknown node is left alone |
| CapacityScripts.RollbackRestores | internal/scheduler/scheduler.go:234-246 | undoing a reservation restores every counter exactly |
| Scheduler.LiveNodes | internal/scheduler/scheduler.go:47-65 | each registered node holding a lease, once, in name order, whatever order the registry is read in |
| Scheduler.BestFitOrder | internal/scheduler/scheduler.go:74-125 | an arrangement of exactly the live nodes that fit, by normalized leftover and then node id |
| Scheduler.FitTotallyOrders | internal/scheduler/scheduler.go:106-123 | the fit comparison is a total order on any set of nodes |
| Scheduler.TighterComesFirst | internal/scheduler/scheduler.go:67-71 | of two equally large nodes the one with less room in one dimension and no more in the other comes first, whatever the ids |
| Scheduler.ScoreIsRelative | internal/scheduler/scheduler.go:71-73 | a node k times as large with k times the leftover scores the same, so neither size nor unit dominates |
| Scheduler.ScoreIsEven | internal/scheduler/scheduler.go:106-115 | a node with its CPU and memory leftovers exchanged scores the same, so the two dimensions weigh alike |
| Scheduler.TiesGoToSmallerId | internal/scheduler/scheduler.go:117-123 | equal scores are settled by the node id, the smaller first |
| Scheduler.BestFitUnique | internal/scheduler/scheduler.go:117-124 | there is only one such arrangement, so registry order leaves no trace |
| Scheduler.PickIsFirstAccepted | internal/scheduler/scheduler.go:176-186 | the node taken is the first that accepts at its own reserve; none only if every candidate refused |
| Scheduler.ScheduleOne | internal/scheduler/scheduler.go:170-232 | with rivals moving capacities before each reserve: the state and outcome of a placement, of a rollback after a failed id or write, and of a lost dispatch |
| Placement.BestIsTightest | internal/scheduler/scheduler.go:117-123 | the chosen node fits and no fitting node comes before it in the fit order |
| Placement.PlaceOne | internal/scheduler/scheduler.go:170-232 | without rivals the tightest node is always accepted, and nothing is placed only if no live node fits |
| Placement.ScheduleReplicas | internal/scheduler/scheduler.go:144-167 | places replicas one by one until the count is reached or one fits nowhere; state and created ids |
| Placement.PlacementTakesOneSlot | internal/scheduler/scheduler.go:176-186 | a placement on any fitting node uses up exactly one slot of the cluster |
| Placement.NoSlotsWithoutRoom | internal/scheduler/scheduler.go:97-104 | a cluster has no slot left exactly when no live node fits the request |
| Placement.SlotsBoundEveryPlacement | internal/scheduler/scheduler.go:144-167 | no strategy at all places more replicas than the sum over live nodes of min(free CPU / cpu, free mem / mem) |
| Placement.PlacementIsMaximal | internal/scheduler/scheduler.go:155-163 | the ids created are the first min(count, slots) ones, so stopping at the first unplaceable replica loses nothing |
| Membership.ReconcileAllocations | internal/node/node.go:109-144 | the totals equal the summed requests of the node's non-Evicted pods, in any scan order |
| Membership.Register | internal/node/node.go:74-102 | publishes the capacity with the re-derived allocation and joins the registry |
| Membership.MarkEvicted | internal/controller/health.go:36-50 | exactly the node's pods become Evicted; the count is of those that were not yet |
| Membership.EvictScript | internal/controller/health.go:29-61 | marks the pods, zeroes the allocation and leaves the registry in one step |
| Membership.EvictNode | internal/controller/health.go:183-210 | evicts unless the id is empty or the lease is back |
| Membership.SweepOnce | internal/controller/health.go:109-134 | evicts exactly the registered nodes without a lease, with one result for every registry order |
| Membership.SweepMeaning | internal/controller/health.go:109-134 | a registered node with a lease keeps membership, capacity and pods; one without is out of the registry with nothing allocated and all its pods Evicted; nothing else moves |
| Membership.EvictionsCompose | internal/controller/health.go:114-132 | evicting one set of nodes after another is evicting their union |
| Ledger.StopAndRemove | internal/supervisor/consumer.go:97-143 | a pod still holding capacity gives it back, then its record goes; a missing pod is no error |
| Ledger.RemovalNeverClamps | internal/supervisor/consumer.go:121-125 | in a consistent state the zero clamp never fires on a removal |
| Ledger.RemovalKeeps | internal/supervisor/consumer.go:97-143 | a removal keeps every ledger exact |
| Ledger.PlacementKeeps | internal/scheduler/scheduler.go:176-230 | a placement keeps every ledger exact, dispatched or not |
| Ledger.ScheduleKeeps | internal/scheduler/scheduler.go:170-232 | so does every outcome of scheduling one replica, failures and rollbacks included |
| Ledger.EvictionKeeps | internal/controller/health.go:29-61 | evicting any set of nodes keeps every ledger exact |
| Ledger.RegisterKeeps | internal/node/node.go:74-102 | registering a node keeps every ledger exact |
| Ledger.AgentWriteKeeps | internal/supervisor/spawn.go:173-179 | an agent's write that moves no pod, changes no request and crosses no Evicted boundary keeps every ledger exact |
| Ledger.ExactLedgerOverRuns | internal/node/node.go:104-108 | over every run of schedules, removals, evictions, registrations and agent writes each allocation equals the summed requests of the node's non-Evicted pods |
| Ledger.StartKeepsLedgerIff | internal/supervisor/spawn.go:83-113 | starting a pod keeps the ledger exact if and only if the pod was not Evicted |
| Ledger.CrashMidRemovalUndercounts | internal/supervisor/consumer.go:121-136 | a crash after the release leaves one counter low by exactly the pod's request, and registering repairs it |
| Ledger.RegisterRepairs | internal/node/node.go:68-73 | registering every node that drifted, in any order and from any state, makes the whole ledger exact |
| Ledger.LastTotalCounts | internal/node/node.go:80-94 | after any number of registrations each node has the size it published last; a node that did not register keeps its capacity hash |
| Interleaving.NeverOutOfRange | internal/capacity/capacity.go:30-95 | in every interleaving of reserve, release and evict scripts under stale reads and double releases, 0 <= allocated <= total in both dimensions |
| Interleaving.ChosenIsPicked | internal/scheduler/scheduler.go:176-186 | in every interleaving a scheduler holds the first candidate accepted at its own reserve, or none if all refused |
| Interleaving.StepClaims | internal/scheduler/scheduler.go:180-209 | each script moves the claims on each node by exactly what it reserves or returns |
| Interleaving.ExactUnderInterleaving | internal/scheduler/scheduler.go:176-209 | without evictions and double releases each counter equals unreleased pods plus reservations in flight after every step, and these fit in the node |
| Interleaving.NeverOverUnderInterleaving | internal/capacity/capacity.go:68-72 | with them too, no counter exceeds the claims behind it |
| Interleaving.EvictionExactIff | internal/controller/health.go:52-58 | an eviction keeps the counters exact if and only if no scheduler holds a reservation on the node |
| Interleaving.EvictionRaceOversubscribes | internal/controller/health.go:52-58 | from any state where one does, a three-step run grants more than the node has |
| Replica.VictimsTotallyOrdered | internal/controller/replica.go:272-284 | status, age and id order pods with distinct ids totally, so the choice does not depend on scan order |
| Replica.ForceRemove | internal/controller/replica.go:376-389 | the reservation of a pod that holds one goes back, and the record goes |
| Replica.RemovePods | internal/controller/replica.go:317-369 | a victim on a live node is sent a stop command, any other is removed at once, in order |
| Replica.SplitLive | internal/controller/replica.go:226-234 | the live pods in order, and the keys of the Evicted ones |
| Replica.ReconcileDeployment | internal/controller/replica.go:197-260 | the state and the counts reported when the deployment is gone, short, over or exact |
| ScaleDown.SelectsVictimSet | internal/controller/replica.go:268-290 | sorting and cutting picks exactly the n pods that all others outrank |
| ScaleDown.VictimsAreLeastUseful | internal/controller/replica.go:262-307 | no pod goes while one in a less useful state stays, in the order Unschedulable, Failed, CrashLoopBackOff, Pending, Running; among equals the newer goes, then the larger id |
| ScaleDown.VictimSetUnique | internal/controller/replica.go:272-284 | there is only one such set |
| ScaleDown.VictimsStable | internal/controller/replica.go:277-279 | after any subset of the victims is gone, the victims left are the victim set of what is left |
| ScaleDown.FreshChoiceIsWhatIsLeft | internal/controller/replica.go:251-257 | a reconcile part way through a scale-down selects the original victims still present |
| ScaleDown.RemoveAllEffect | internal/controller/replica.go:338-368 | removal touches only the victims: each is gone or has a stop waiting in its node's queue |
| ScaleDown.RemoveAllReaches | internal/controller/replica.go:338-367 | a victim on a live node keeps its record until its stop is handled, any other loses it at once |
| Consumer.HandleNext | internal/supervisor/consumer.go:27-88 | takes the oldest command off a queue; a stop removes the pod it names, a start updates the record as its spawn ends, and neither touches a pod or deployment that is gone |
| Consumer.DrainsInOrder | internal/supervisor/consumer.go:27-64 | commands of a node are handled in the order queued, each once, and no other queue moves |
| ScaleDown.DrainKeeps | internal/supervisor/consumer.go:68-88 | handling a queued command, duplicates and status-preserving starts included, keeps the scale-down on its plan |
| ScaleDown.ReconcileKeeps | internal/controller/replica.go:197-260 | so does a repeated reconcile, after which every victim left has a stop queued |
| ScaleDown.StableScaleDown | internal/controller/replica.go:251-290 | over every interleaving of reconciles, drains and lease changes only the original victims go, the count never falls below desired, and it is exactly desired once a reconcile ran and no stop is queued |
| ScaleDown.PlanStarts | internal/controller/replica.go:251-257 | the victims of the first reconcile start that protocol |
| Recovery.BatchPlaced | internal/scheduler/scheduler.go:144-167 | a batch keeps old records and exact ledgers, and adds one Pending pod per id on a live node |
| Recovery.BatchDispatched | internal/scheduler/scheduler.go:195-223 | each replica of a batch is recorded as asked, Pending and without process or history, and its node has its start queued |
| Recovery.SurvivorsAreLeased | internal/controller/health.go:109-134 | after a sweep every pod that still counts is on a registered node with a lease |
| Recovery.SweepLeaves | internal/controller/health.go:109-134 | a sweep leaves exactly the pods on leased nodes, unchanged, and all the room those nodes had |
| Recovery.ReconcileRestores | internal/controller/replica.go:222-250 | with room for what is missing, one reconcile leaves exactly desired live pods on leased nodes, no Evicted record, other deployments untouched and ledgers exact |
| Recovery.FailureRecovery | internal/controller/replica.go:197-260 | from any consistent state, whatever events were lost, with at most desired pods on leased nodes and room there for the rest, a sweep and one reconcile leave exactly desired live pods on leased nodes, no Evicted record and exact ledgers, and touch no pod on a leased node |
| Cluster.ReconcileKeepsLedger | internal/controller/replica.go:197-260 | a reconcile keeps every ledger exact in all its branches |
| Cluster.DrainKeepsLedgerIff | internal/supervisor/consumer.go:68-88 | handling a queued command keeps every ledger exact if and only if it is not a start that writes to an Evicted pod |
| Cluster.DrainSafeIff | internal/supervisor/spawn.go:83-113 | however the spawn ends, the drain is safe if and only if the command at the head is no start of an Evicted pod whose deployment exists |
| Cluster.LeftoverStartBreaksLedger | internal/supervisor/spawn.go:83-113 | the breaking state is reachable: from an empty store, register, schedule and evict is a run whose next drain breaks the ledger, for every node, deployment and pod that fits |
| Cluster.RegisterRepairsStart | internal/node/node.go:68-73 | registering that pod's node makes every ledger exact again |
| Cluster.LedgerExactOverRuns | internal/controller/replica.go:158-260 | over every run mixing single steps, sweeps, reconciles and drains, in which no start writes to an Evicted pod, the ledgers stay exact |
| Fleet.PlacementCosts | internal/scheduler/scheduler.go:176-186 | a placement takes at most one slot of any larger request |
| Fleet.TurnTrims | internal/controller/replica.go:251-257 | a reconcile that finds too many pods, all on live nodes, loses none and has a stop queued for exactly the victim set |
| Fleet.DeltaMeaning | internal/controller/replica.go:236-258 | the counts reported: the live pods seen, min(missing, slots) created, the excess asked to go |
| Fleet.RoundRestoresAll | internal/controller/replica.go:158-187 | if the starting state has room, in slots of the largest request, for all that is missing, a full reconcile brings every deployment that was not above its wanted number exactly to it, tells the excess of the others to stop, and no turn undoes another |
| Fleet.SweepAndRound | internal/controller/replica.go:158-193 | from any consistent state with room on its leased nodes, a sweep and a full reconcile heal every deployment visited, keep every pod on a leased node and leave the ledgers exact |
| Fleet.SelfHealing | internal/controller/replica.go:158-193 | so from an empty store after any run in which no start writes to an Evicted pod |
| Repair.SoundOverHistories | internal/schema/schema.go:44-54 | over every history, with leftover starts and counters drifting to any value, records stay keyed by what they hold and specs stay valid |
| Repair.RejoiningRepairs | internal/node/node.go:68-108 | once every node whose counter is off, or that holds a pod without being a member, has registered again, the whole cluster is consistent |
| Repair.SelfHealingAfterAnything | internal/controller/replica.go:158-193 | from an empty store, after any such history, those registrations, a sweep and a full reconcile with room on the leased nodes heal every deployment visited and leave the ledgers exact |
| Deletion.RemovalOutcome | internal/controller/replica.go:317-389 | removing pods: on a live node the record stays and a stop is queued, elsewhere it goes at once, and the counters come down by exactly the requests of those gone |
| Deletion.DeletedIsRemoved | internal/controller/replica.go:206-210 | reconciling a deleted deployment does that to every pod of its name and to no other, and reports their number |
| Deletion.DeletionCompletes | internal/controller/replica.go:206-210 | over every history after a deletion, once a reconcile of the name has run and no stop for it is queued, no pod of it is left |
| Ports.ClaimedPorts | internal/supervisor/spawn.go:314-334 | exactly the ports recorded by this node's pods |
| Ports.AllocateHostPort | internal/supervisor/spawn.go:281-311 | the first usable port among the preferred one and the scan range, or none |
| Ports.FirstUsableMeaning | internal/supervisor/spawn.go:299-310 | a port returned is usable; none is returned only if no candidate is |
| Ports.AllocationSucceeds | internal/supervisor/spawn.go:287-310 | an allocated port is in range, unclaimed and free, and one is found whenever fewer than 512 ports of the scan range are taken |
| Ports.PreferredWins | internal/supervisor/spawn.go:279-290 | a usable declared port is the one allocated |
| Ports.MappedPreferredWins | internal/supervisor/spawn.go:290-294 | a declared port out of range is mapped to 20000 plus its remainder by 1000, if that is usable |
| Ports.LowestOtherwise | internal/supervisor/spawn.go:295-309 | failing that, the lowest usable port of the scan range is taken |
| Supervisor.Supervisor.Spawn | internal/supervisor/spawn.go:60-190 | refuses a missing deployment or pod, keeps a verified process, reuses or allocates the port, and records, fails or leaves the process unrecorded |
| Supervisor.SpawnWrites | internal/supervisor/spawn.go:173-207 | a spawn changes no record but its pod's, and that one exactly as the outcome the queue and the health loop see |
| Supervisor.Supervisor.Stop | internal/supervisor/spawn.go:218-247 | signals only a verified process and clears the identity in any case |
| Supervisor.Supervisor.VisitPod | internal/supervisor/reconcile.go:53-123 | adopts a verified process or respawns, skipping other nodes' and Evicted pods |
| Supervisor.Supervisor.KillOrphans | internal/supervisor/reconcile.go:148-181 | removes exactly the unowned processes with this node's marker, in any order of the process table |
| Supervisor.Supervisor.ReconcileOnStartup | internal/supervisor/reconcile.go:41-139 | visits every pod, then kills the orphans |
| Agent.SpawnKeeps | internal/supervisor/spawn.go:88-113 | a spawn keeps identities and ports distinct, a restart keeps its port, a first launch takes a free one |
| Agent.StopKillsOnlyItsOwn | internal/supervisor/spawn.go:233-238 | a stopped process is the pod's own, however often its pid was reused |
| Agent.StopEndsProcess | internal/supervisor/spawn.go:233-246 | after a stop a verified process is gone, the record points at none, and all else is as it was |
| Agent.StartupLeavesNoStrays | internal/supervisor/reconcile.go:41-181 | after startup each process whose environment names a pod and this node serves exactly one non-Evicted pod, adopted processes are unchanged, and no other process was killed, the agent included |
| Adoption.StartupRestores | internal/supervisor/reconcile.go:73-123 | after startup every non-Evicted pod of the node that had its process is Running with it, and every one that had lost it is Running with the one launched for it, given its deployment, a launch that goes through, and a port or room for all that need one |
| Agent.IdentitiesAndPortsOverRuns | internal/supervisor/process.go:86-98 | over every run with deaths, pid reuse, crashes mid-launch and agent restarts, identities and ports stay pairwise distinct, ports in 20000..60000, markers true |
| Agent.StartupAfterAnyRun | internal/supervisor/reconcile.go:141-147 | whatever ran before, the next completed startup leaves no duplicate and no orphan |
| Agent.PortIsStable | internal/supervisor/spawn.go:97-105 | a pod keeps its port through every run until its record is dropped |
| Health.BackoffFor | internal/supervisor/health.go:220-232 | the loop computes min(base * 2^n, max), and the base for n <= 0 |
| Health.PodRecord.CheckPod | internal/supervisor/health.go:98-143 | the record after a check: waiting, healthy, below the threshold, or declared Failed |
| Health.PodRecord.RestartIfBackoffElapsed | internal/supervisor/health.go:150-188 | nothing before the stored deadline; then the attempt is counted before the spawn |
| Health.SpacingOverRuns | internal/supervisor/health.go:145-188 | restart count, stamps and stored delay stay in step with the attempts really made |
| Health.RestartSpacing | internal/supervisor/health.go:145-188 | over every run attempt k+1 is stamped at least min(base * 2^k, max) after attempt k and comes more than that less one second after it on the wall clock; n attempts take at least the summed series, likewise |
| Health.EarliestRestart | internal/supervisor/health.go:157-163 | a restart is due if and only if the wait less the dropped fraction of a second has passed |
| Health.CounterOverRuns | internal/supervisor/health.go:106-130 | the stored counter never exceeds the trailing run of failed probes since the last counted restart |
| Health.DeclaringStartsBackoff | internal/supervisor/health.go:132-163 | a declaration makes the restart due exactly min(base * 2^n, max) later, less the dropped fraction of a second |
| Health.RestartAfterDeclaration | internal/supervisor/health.go:132-188 | over every run each counted restart, the first included, comes more than that delay less one second after every declaration before it |
| Health.FailedOnlyAfterThreshold | internal/supervisor/health.go:119-143 | after any run, a probe declares a pod Failed only when the last threshold probes since its last counted restart all failed |
| Health.ConsecutiveFailuresDeclare | internal/supervisor/health.go:119-143 | and that many failed probes in a row do declare it |
| Autoscale.ObserveScript | internal/controller/autoscale.go:64-92 | the floor of the exact mean of the pods' means, or nothing without a readable sample |
| Autoscale.ObservedCPU | internal/api/dashboard.go:317-348 | the nested integer average, 0 without a readable sample |
| Autoscale.LastThreeCount | internal/controller/autoscale.go:71-85 | for one pod both averages are the mean of its last three samples, whatever is older, or of all it has if fewer |
| Autoscale.OnlyTheWindowCounts | internal/api/dashboard.go:325-342 | for any number of pods nothing but the last three entries of each list matters |
| Autoscale.EverySampleCounts | internal/controller/autoscale.go:71-92 | and each of those three does: raising one by its pod's readable samples times the pods taking part raises both averages by exactly one |
| Autoscale.AveragesAgree | internal/api/dashboard.go:311-348 | the dashboard is never above the autoscaler's average and never more than one below; both have nothing in the same cases |
| Autoscale.AveragesEqualIff | internal/api/dashboard.go:341-347 | the two are equal if and only if the last remainder and the fractions dropped before it make less than one point per pod |
| Autoscale.AveragesDiffer | internal/api/dashboard.go:341-347 | telemetry on which the two differ by one |
| Scaling.UnclampedIsLeast | internal/controller/autoscale.go:94-95 | the target is the least r with r * target >= desired * observed, and exceeds desired exactly when observed > target |
| Scaling.WantedIff | internal/controller/autoscale.go:94-97 | the count moved to is r if and only if r carries the load and r - 1 would not, a bound needing only the half that points inside |
| SteadyLoad.KeptIff | internal/controller/autoscale.go:92-101 | under a constant load a count is kept over every run of ticks if and only if the load less its remainder lies in the window of that count, or beyond it at a bound |
| SteadyLoad.Alternates | internal/controller/autoscale.go:92-122 | between two counts that ask for each other the count alternates at every tick past the cooldowns, over runs of any length |
| SteadyLoad.AlternatesIff | internal/controller/autoscale.go:92-122 | and it does so from d if and only if load, target and bounds satisfy that condition |
| SteadyLoad.LoadOf104Alternates | internal/controller/autoscale.go:92-122 | at load 104 and target 51, n such ticks from two replicas leave two or three by the parity of n |
| Scaling.DeploymentStore.Evaluate | internal/controller/autoscale.go:34-123 | the record and outcome of one script run, in every branch |
| Scaling.DeploymentStore.WriteBack | internal/api/store.go:87-111 | a write over a record that may have moved on; stamps never set are left as stored |
| Scaling.DeploymentStore.Apply | internal/api/store.go:75-112 | creates at the minimum; an edit keeps stamps and the count, clamped to the new bounds |
| Scaling.EditMovesLeast | internal/api/store.go:87-102 | an edit takes the new settings, keeps name and stamps, and moves the count to the nearest allowed one, so not at all if it was allowed |
| Scaling.DeploymentStore.SetDesiredReplicas | internal/api/store.go:116-131 | moves only the count, clamped to the record's own bounds |
| Scaling.ManualMovesNearest | internal/api/store.go:125-142 | a manual scale moves the count to the allowed one nearest to what was asked |
| Scaling.CooldownSafety | internal/controller/autoscale.go:99-122 | over every run of ticks, edits, edits whose stamps did not move between read and write, and manual scales: min <= desired <= max, stamps are the times of the latest changes, scale-ups at least the up-cooldown apart, scale-downs at least the down-cooldown after any earlier change |
| Scaling.ChangesPerWindow | internal/controller/autoscale.go:125-130 | W seconds hold at most W/U + 1 scale-ups and W/D + 1 scale-downs |
| Scaling.CreatedStarts | internal/api/store.go:87-106 | a created deployment has the settings asked for, starts at the minimum and satisfies the invariant |
| StaleEdits.StampsSurviveIff | internal/schema/schema.go:206-211 | a late edit write leaves the stamps true if and only if each stamp it read was unset or still equals the stored one |
| StaleEdits.EarlyUpIff | internal/api/store.go:98-108 | after a late write some tick scales up too early if and only if the write moved the up-stamp back, that cooldown is still running and the record can grow |
| StaleEdits.EarlyDownIff | internal/api/store.go:98-108 | the same for scale-downs and the latest change of either kind |
| StaleEdits.LateWriteSafeIff | internal/api/store.go:98-108 | every run after a late write keeps the cooldowns if and only if each stamp it moved back belongs to a cooldown already over |
| StaleEdits.StaleEditBreaksCooldown | internal/api/store.go:98-108 | a reachable late write after which two scale-ups happen a second apart under a 30-second cooldown |
| Scaling.StaleManualScaleIff | internal/api/store.go:116-131 | a manual scale with stale bounds is safe for every count asked if and only if those bounds lie inside the stored ones |
| Ingress.RenderRoundTrip | internal/ingress/ingress.go:228-269 | a parser of the rendered text returns each upstream with its ports, and for each a location under the deployment's name proxied to its own upstream |
| Routing.ReadBackends | internal/ingress/ingress.go:193-222 | the sorted ports of each deployment's Running pods, one result for every scan order |
| Routing.BackendsMeaning | internal/ingress/ingress.go:188-222 | a deployment is listed if and only if a pod of it is Running with a port, and each port, in order, as often as such pods record it |
| Routing.BackendsScanFree | internal/ingress/ingress.go:215-220 | two scans of the same records give the same backends, repeats included |
| Routing.Render | internal/ingress/ingress.go:228-264 | the loops produce the text of the sorted, non-empty entries |
| Routing.RenderInjective | internal/ingress/ingress.go:228-264 | equal texts come from equal backends |
| Routing.SkipIsSound | internal/ingress/ingress.go:167-170 | two sets of records render alike if and only if they route alike |
| Routing.Controller.Sync | internal/ingress/ingress.go:161-186 | after every successful sync the file is the rendering of the pods running now |
| Reloading.StateOverRuns | internal/ingress/ingress.go:161-186 | over every run of syncs from a new controller the file is the last text written and the router runs the last change whose reload went through |
| Reloading.InStepIff | internal/ingress/ingress.go:167-185 | after a sync that reports success the router runs the file if and only if the last reloaded change was to that text |
| Reloading.LastChangeDecides | internal/ingress/ingress.go:172-185 | only the last change of the text decides that, whatever failed before |
| Reloading.FailedReloadIsForgotten | internal/ingress/ingress.go:168-185 | after a failed reload every run of syncs with the same text reports success and leaves the router with what it ran before |
| LogCursor.SplitFormat | internal/api/dashboard.go:398-406 | every 64-bit id splits back into its two numbers |
| LogCursor.MalformedReadsZero | internal/api/dashboard.go:398-406 | a missing second part, and a first part that starts with no digit, read as 0 |
| LogCursor.NewerIsLater | internal/api/dashboard.go:388-395 | the text comparison is the numeric order of ids |
| LogCursor.RecentLogs | internal/api/dashboard.go:352-382 | the entries of the newest count that are past the cursor, oldest first, and the newest id |
| LogCursor.FrameCarries | internal/api/dashboard.go:352-382 | a frame carries exactly the part of the window past the cursor |
| LogCursor.DeliveredInOrder | internal/api/dashboard.go:142-195 | over every run of appends, frames and failed reads, delivered ids strictly increase |
| LogCursor.FrameGapFreeIff | internal/api/dashboard.go:177-194 | a frame leaves no gap if and only if it can carry everything past the cursor |
| LogCursor.NothingMissed | internal/api/dashboard.go:153-161 | if every later frame can, what is delivered is one unbroken stretch of the stream |
| Lease.LeaseSurvives | internal/node/node.go:147-177 | with at most k failed refreshes in a row and (k+1) intervals within the TTL the lease is present at every instant |
| Lease.LeaseLapses | internal/node/node.go:151-156 | when (k+1) intervals exceed the TTL, k failures in a row make it lapse |
| Lease.AcceptedToleratesOne | internal/node/node.go:41-51 | every accepted configuration rides out single failures, and one accepted configuration lapses after two |
| Lease.RunHeartbeatLoop | internal/node/node.go:157-177 | after the last refresh the lease is present exactly until the TTL of the last one that got through |

## Left out

- Redis I/O errors other than the faults named in the model, context cancellation, malformed hashes and logging: they add skip branches to each operation.
- Pub/Sub, event debouncing, JSON encoding, HTTP handlers, the dashboard page, the load generator, `cmd/` and scripts: plumbing.
- Process launch, signals, `/proc` parsing, process groups and Windows files: a process table whose (pid, start time) pairs never repeat stands in; termination always succeeds.
- Telemetry tick conversion, configuration loading, field validation and struct-to-hash round trips: easy members; their results are preconditions.
- Machine floats and integers: scores and averages are exact reals, counters and durations unbounded.
- Non-atomic interleavings beyond `Interleaving` and `StaleEdits`: a probe and a start command acting on one pod at once, two spawns allocating a port at once, a record rewritten after its deletion.
- Registration under interleaving: its scan and its write are two steps, and a reservation between them drifts until the next registration.
- A stop command that fails to dispatch: the victim stays until the next reconcile.
- Failed status writes during startup adoption, and the startup report's lists.
- reapOrphanPods: it removes the pods of unknown deployments by the same path as `Replica.ReconcileDeployment` for a deleted one.
- The health probe itself (process check and connection): its result is an input of `Health.PodRecord.CheckPod`.
- EvaluateAll, telemetry expiry and log stream trimming.
- Deregister: it only drops the lease.
- Consumer.HandleNext: the store side only; what the process does is `Supervisor.Supervisor.Spawn` and `Supervisor.Supervisor.Stop`.
- Cluster.LedgerExactOverRuns: excludes runs in which a start writes to an Evicted pod, since exactly those break the ledger (`Cluster.DrainKeepsLedgerIff`).
- Fleet.SelfHealing: the same exclusion; `Repair.SelfHealingAfterAnything` covers them, with the nodes concerned registering again first.
- ScaleDown.StableScaleDown: statuses are fixed, so a start that changes its pod's status is not a move of the protocol.
- Ledger.StopAndRemove: the store side only; the process side is `Supervisor.Supervisor.Stop`.
