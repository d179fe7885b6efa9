/** Scale-down with asynchronous removal: repeated reconciles and queue drains in any order. */
module ScaleDown {
  import opened Collections
  import opened Schema
  import opened Store
  import opened Scheduler
  import opened Placement
  import opened Ledger
  import opened Replica
  import opened Consumer
  import Health

  // ----- victims as a set -----

  // The n pods every other pod outranks.
  ghost predicate IsVictimSet(pods: map<PodKey, Pod>, all: set<PodKey>, victims: set<PodKey>, n: int) {
    && victims <= all <= pods.Keys && |victims| == n
    && (forall v, p :: v in victims && p in all - victims ==> VictimLess(pods[v], pods[p]))
  }

  lemma VictimLessAsymmetric(p: Pod, q: Pod)
    ensures !(VictimLess(p, q) && VictimLess(q, p))
    ensures p.podId != q.podId ==> VictimLess(p, q) || VictimLess(q, p)
  {
    hide StringLess;
    StringTrichotomy(p.createdAt, q.createdAt);
    StringTrichotomy(p.podId, q.podId);
  }

  lemma VictimSetUnique(pods: map<PodKey, Pod>, all: set<PodKey>, a: set<PodKey>, b: set<PodKey>, n: int)
    requires IsVictimSet(pods, all, a, n) && IsVictimSet(pods, all, b, n)
    ensures a == b
  {
    hide VictimLess;
    var x, y := a - b, b - a;
    assert a == a * b + x && b == a * b + y;
    assert |x| == |y|;
    if x != {} {
      var v :| v in x;
      var w :| w in y;
      VictimLessAsymmetric(pods[v], pods[w]);
    }
  }

  // From the first to go to the last.
  const KEEPING_ORDER: seq<Status> := [Unschedulable, Failed, CrashLoopBackOff, Pending, Running]

  // A pod that goes is never in a more useful state than one that stays; among equals the newer goes, and among those
  // created together the one with the larger id.
  lemma VictimsAreLeastUseful(pods: map<PodKey, Pod>, all: set<PodKey>, victims: set<PodKey>, n: int, v: PodKey,
                              p: PodKey, i: nat, j: nat)
    requires IsVictimSet(pods, all, victims, n) && v in victims && p in all - victims
    requires i < |KEEPING_ORDER| && j < |KEEPING_ORDER|
    requires pods[v].status == KEEPING_ORDER[i] && pods[p].status == KEEPING_ORDER[j]
    ensures i <= j
    ensures i == j ==> StringLeq(pods[p].createdAt, pods[v].createdAt)
    ensures i == j && pods[p].createdAt == pods[v].createdAt ==> StringLess(pods[p].podId, pods[v].podId)
  {
    hide StringLess;
    StringTrichotomy(pods[p].createdAt, pods[v].createdAt);
    assert VictimLess(pods[v], pods[p]);
  }

  // Once some of the victims are gone, the choice made afresh is the victims that are left.
  lemma VictimsStable(pods: map<PodKey, Pod>, all: set<PodKey>, victims: set<PodKey>, n: int, gone: set<PodKey>)
    requires IsVictimSet(pods, all, victims, n) && gone <= victims
    ensures IsVictimSet(pods, all - gone, victims - gone, n - |gone|)
  {
    assert victims == gone + (victims - gone);
  }

  // ----- SelectVictims computes that set -----

  function Keys(pods: seq<Pod>): (r: seq<PodKey>)
    ensures |r| == |pods| && forall i :: 0 <= i < |r| ==> r[i] == KeyOf(pods[i])
  {
    seq(|pods|, i requires 0 <= i < |pods| => KeyOf(pods[i]))
  }

  ghost predicate Represents(pods: map<PodKey, Pod>, list: seq<Pod>, all: set<PodKey>, name: string) {
    && all <= pods.Keys && IsScan(Keys(list), all)
    && (forall i :: 0 <= i < |list| ==> pods[Keys(list)[i]] == list[i] && list[i].deployment == name)
  }

  lemma RepresentsAt(pods: map<PodKey, Pod>, list: seq<Pod>, all: set<PodKey>, name: string, i: nat)
    requires Represents(pods, list, all, name) && i < |list|
    ensures KeyOf(list[i]) in all && pods[KeyOf(list[i])] == list[i] && list[i].deployment == name
  {
    assert Keys(list)[i] in Elements(Keys(list));
  }

  lemma SameIdSamePod(pods: map<PodKey, Pod>, list: seq<Pod>, all: set<PodKey>, name: string, i: nat, j: nat)
    requires Represents(pods, list, all, name) && i < |list| && j < |list| && list[i].podId == list[j].podId
    ensures i == j
  {
    RepresentsAt(pods, list, all, name, i);
    RepresentsAt(pods, list, all, name, j);
    assert Keys(list)[i] == Keys(list)[j];
  }

  lemma ListTotallyOrdered(pods: map<PodKey, Pod>, list: seq<Pod>, all: set<PodKey>, name: string)
    requires Represents(pods, list, all, name)
    ensures TotalOrderOn(VictimLeq, Elements(list)) && IsScan(list, Elements(list))
  {
    hide TotalOrderOn, VictimLeq;
    forall p, q | p in Elements(list) && q in Elements(list) && p.podId == q.podId
      ensures p == q
    {
      var i :| 0 <= i < |list| && list[i] == p;
      var j :| 0 <= j < |list| && list[j] == q;
      SameIdSamePod(pods, list, all, name, i, j);
    }
    VictimsTotallyOrdered(Elements(list));
    forall i, j | 0 <= i < j < |list|
      ensures list[i] != list[j]
    {
      assert Keys(list)[i] != Keys(list)[j];
    }
  }

  // A list of the same pods in another order represents the same keys.
  lemma RearrangedRepresents(pods: map<PodKey, Pod>, list: seq<Pod>, other: seq<Pod>, all: set<PodKey>, name: string)
    requires Represents(pods, list, all, name) && IsScan(other, Elements(list))
    ensures Represents(pods, other, all, name)
  {
    forall i | 0 <= i < |other|
      ensures Keys(other)[i] in all && pods[Keys(other)[i]] == other[i] && other[i].deployment == name
    {
      assert other[i] in Elements(other);
      var j :| 0 <= j < |list| && list[j] == other[i];
      RepresentsAt(pods, list, all, name, j);
    }
    forall k | k in all
      ensures k in Elements(Keys(other))
    {
      assert k in Elements(Keys(list));
      var j :| 0 <= j < |list| && Keys(list)[j] == k;
      assert list[j] in Elements(other);
      var i :| 0 <= i < |other| && other[i] == list[j];
      assert Keys(other)[i] == k;
    }
    assert Elements(Keys(other)) == all;
    forall i, j | 0 <= i < j < |other|
      ensures Keys(other)[i] != Keys(other)[j]
    {
      assert other[i] != other[j];
      assert pods[Keys(other)[i]] == other[i] && pods[Keys(other)[j]] == other[j];
    }
  }

  lemma PrefixRepresents(pods: map<PodKey, Pod>, list: seq<Pod>, all: set<PodKey>, name: string, n: nat)
    requires Represents(pods, list, all, name) && n <= |list|
    ensures Represents(pods, list[..n], Elements(Keys(list[..n])), name)
    ensures Elements(Keys(list[..n])) <= all && |Elements(Keys(list[..n]))| == n
    ensures forall k :: k in all - Elements(Keys(list[..n])) ==> exists j :: n <= j < |list| && KeyOf(list[j]) == k
  {
    var part := Keys(list[..n]);
    forall i | 0 <= i < n
      ensures part[i] == Keys(list)[i] && part[i] in all && pods[part[i]] == list[i] && list[i].deployment == name
    {
      RepresentsAt(pods, list, all, name, i);
    }
    assert IsScan(part, Elements(part));
    ScanLength(part, Elements(part));
    forall k | k in all - Elements(part)
      ensures exists j :: n <= j < |list| && KeyOf(list[j]) == k
    {
      assert k in Elements(Keys(list));
      var j :| 0 <= j < |list| && Keys(list)[j] == k;
    }
  }

  // Sorting and taking a prefix picks exactly the pods every other pod outranks.
  lemma SelectsVictimSet(pods: map<PodKey, Pod>, list: seq<Pod>, all: set<PodKey>, name: string, n: nat)
    requires Represents(pods, list, all, name) && n <= |list|
    ensures IsVictimSet(pods, all, Elements(Keys(SelectVictims(list, n))), n)
    ensures Represents(pods, SelectVictims(list, n), Elements(Keys(SelectVictims(list, n))), name)
  {
    hide VictimLess, StringLess, Represents, SortBy, IsScan, TotalOrderOn;
    ListTotallyOrdered(pods, list, all, name);
    SortKeepsScan(list, Elements(list), VictimLeq);
    SortByPermutes(list, VictimLeq);
    var r := SortBy(list, VictimLeq);
    RearrangedRepresents(pods, list, r, all, name);
    PrefixRepresents(pods, r, all, name, n);
    assert SelectVictims(list, n) == r[..n];
    var victims := Elements(Keys(r[..n]));
    forall v, p | v in victims && p in all - victims
      ensures v in pods && p in pods && VictimLess(pods[v], pods[p])
    {
      var i :| 0 <= i < n && Keys(r[..n])[i] == v;
      var j :| n <= j < |r| && KeyOf(r[j]) == p;
      RepresentsAt(pods, r, all, name, i);
      RepresentsAt(pods, r, all, name, j);
      assert VictimLeq(r[i], r[j]);
      VictimLessAsymmetric(r[i], r[j]);
      if r[i].podId == r[j].podId {
        SameIdSamePod(pods, r, all, name, i, j);
      }
    }
    RepresentsSubset(pods, list, all, name);
  }

  lemma RepresentsSubset(pods: map<PodKey, Pod>, list: seq<Pod>, all: set<PodKey>, name: string)
    requires Represents(pods, list, all, name)
    ensures all <= pods.Keys && |list| == |all|
  {
    ScanLength(Keys(list), all);
  }

  // ----- the live pods a reconcile reads -----

  ghost predicate ProperScan(pods: map<PodKey, Pod>, scan: seq<PodKey>, name: string) {
    && (forall k :: k in scan ==> k in pods && k == KeyOf(pods[k]) && k.deployment == name)
    && (forall i, j :: 0 <= i < j < |scan| ==> scan[i] != scan[j])
  }

  function LiveAmong(pods: map<PodKey, Pod>, scan: seq<PodKey>): set<PodKey> {
    set k | k in scan && k in pods && pods[k].status != Evicted
  }

  lemma {:induction false} KeepLiveRepresents(pods: map<PodKey, Pod>, scan: seq<PodKey>, name: string)
    requires ProperScan(pods, scan, name)
    ensures Represents(pods, KeepLive(Read(pods, scan)), LiveAmong(pods, scan), name)
    decreases |scan|
  {
    if scan == [] {
      assert Elements(Keys(KeepLive(Read(pods, scan)))) == {};
    } else {
      var n := |scan| - 1;
      var k, rest := scan[n], scan[..n];
      assert scan == rest + [k] && Read(pods, scan)[..n] == Read(pods, rest);
      KeepLiveRepresents(pods, rest, name);
      var list := KeepLive(Read(pods, rest));
      assert k !in rest;
      if pods[k].status != Evicted {
        assert LiveAmong(pods, scan) == LiveAmong(pods, rest) + {k};
        assert Keys(list + [pods[k]]) == Keys(list) + [k];
        ScanExtend(Keys(list), LiveAmong(pods, rest), k);
      } else {
        assert LiveAmong(pods, scan) == LiveAmong(pods, rest);
      }
    }
  }

  lemma LiveRepresented(s: State, name: string, scan: seq<PodKey>)
    requires ScansPods(s, name, scan) && Keyed(s)
    ensures Represents(s.pods, KeepLive(ReadAll(s, name, scan)), LiveOf(s, name), name)
    ensures |KeepLive(ReadAll(s, name, scan))| == |LiveOf(s, name)|
  {
    assert forall k :: k in scan ==> k in Elements(scan);
    KeepLiveRepresents(s.pods, scan, name);
    assert LiveAmong(s.pods, scan) == LiveOf(s, name) by {
      assert forall k :: k in PodsOf(s, name) ==> k in scan;
    }
    RepresentsSubset(s.pods, KeepLive(ReadAll(s, name, scan)), LiveOf(s, name), name);
  }

  // ----- what removing a list of victims does -----

  ghost predicate StopQueued(s: State, n: NodeId, k: PodKey) { StopPod(k) in Queue(s, n) }

  // Records only disappear, queues only grow, and only the victims are touched.
  ghost predicate RemovalEffect(s: State, s': State, victims: set<PodKey>, pods: map<PodKey, Pod>) {
    && s'.deployments == s.deployments && s'.registry == s.registry && s'.leases == s.leases
    && s'.pods.Keys <= s.pods.Keys && s.pods.Keys - victims <= s'.pods.Keys
    && (forall k :: k in s'.pods ==> s'.pods[k] == s.pods[k])
    && (forall n, k :: StopQueued(s, n, k) ==> StopQueued(s', n, k))
    && (forall n, k :: StopQueued(s', n, k) ==> StopQueued(s, n, k) || k in victims)
    && (forall k :: k in victims && k in s'.pods ==> k in pods && StopQueued(s', pods[k].nodeId, k))
  }

  lemma RemoveOneEffect(s: State, alive: set<NodeId>, p: Pod, pods: map<PodKey, Pod>)
    requires KeyOf(p) in pods && pods[KeyOf(p)] == p
    ensures RemovalEffect(s, RemoveOne(s, alive, p.deployment, p), {KeyOf(p)}, pods)
  {
    hide Freed;
    var s' := RemoveOne(s, alive, p.deployment, p);
    forall n, k
      ensures StopQueued(s', n, k) <==> StopQueued(s, n, k) || (p.nodeId in alive && n == p.nodeId && k == KeyOf(p))
    {
    }
  }

  lemma EffectsCompose(s: State, s1: State, s2: State, a: set<PodKey>, b: set<PodKey>, pods: map<PodKey, Pod>)
    requires RemovalEffect(s, s1, a, pods) && RemovalEffect(s1, s2, b, pods)
    ensures RemovalEffect(s, s2, a + b, pods)
  {
    hide StopQueued;
  }

  lemma {:induction false} RemoveAllEffect(s: State, alive: set<NodeId>, name: string, list: seq<Pod>,
                                           pods: map<PodKey, Pod>, victims: set<PodKey>)
    requires Represents(pods, list, victims, name)
    ensures RemovalEffect(s, RemoveAll(s, alive, name, list), victims, pods)
    decreases |list|
  {
    hide RemoveOne, StopQueued;
    RepresentsSubset(pods, list, victims, name);
    if list != [] {
      hide RemovalEffect, Represents;
      var k := KeyOf(list[0]);
      RepresentsAt(pods, list, victims, name, 0);
      var s1 := RemoveOne(s, alive, name, list[0]);
      RemoveOneEffect(s, alive, list[0], pods);
      TailRepresents(pods, list, victims, name);
      RemoveAllEffect(s1, alive, name, list[1..], pods, victims - {k});
      EffectsCompose(s, s1, RemoveAll(s1, alive, name, list[1..]), {k}, victims - {k}, pods);
      assert {k} + (victims - {k}) == victims;
    }
  }

  // A victim on a live node keeps its record until its stop is handled; any other loses it at once.
  lemma {:induction false} RemoveAllReaches(s: State, alive: set<NodeId>, name: string, list: seq<Pod>,
                                            pods: map<PodKey, Pod>, victims: set<PodKey>)
    requires Represents(pods, list, victims, name)
    ensures var s' := RemoveAll(s, alive, name, list);
            && victims <= pods.Keys
            && (forall k :: k in victims ==>
                  if pods[k].nodeId in alive then k in s.pods ==> k in s'.pods else k !in s'.pods)
            && (forall k :: k in s'.pods ==> k in s.pods)
    decreases |list|
  {
    hide Freed;
    RepresentsSubset(pods, list, victims, name);
    if list != [] {
      hide Represents;
      RepresentsAt(pods, list, victims, name, 0);
      TailRepresents(pods, list, victims, name);
      var k, s1 := KeyOf(list[0]), RemoveOne(s, alive, name, list[0]);
      RemoveAllReaches(s1, alive, name, list[1..], pods, victims - {k});
      OthersReached(s1, alive, name, list[1..], pods, victims - {k}, k);
    }
  }

  lemma OthersReached(s: State, alive: set<NodeId>, name: string, list: seq<Pod>, pods: map<PodKey, Pod>,
                      victims: set<PodKey>, k: PodKey)
    requires Represents(pods, list, victims, name) && k !in victims
    ensures k in RemoveAll(s, alive, name, list).pods <==> k in s.pods
  {
    hide StopQueued, Represents, RemoveAll;
    RemoveAllEffect(s, alive, name, list, pods, victims);
  }

  lemma TailRepresents(pods: map<PodKey, Pod>, list: seq<Pod>, all: set<PodKey>, name: string)
    requires Represents(pods, list, all, name) && list != []
    ensures Represents(pods, list[1..], all - {KeyOf(list[0])}, name)
  {
    var tail := Keys(list[1..]);
    assert Keys(list) == [KeyOf(list[0])] + tail;
    forall i | 0 <= i < |tail|
      ensures tail[i] == Keys(list)[i + 1] && tail[i] in all - {KeyOf(list[0])}
      ensures pods[tail[i]] == list[1..][i] && list[1..][i].deployment == name
    {
      RepresentsAt(pods, list, all, name, i + 1);
      assert Keys(list)[0] != Keys(list)[i + 1];
    }
    assert Elements(tail) == all - {KeyOf(list[0])};
  }

  // ----- the protocol -----

  /** A scale-down fixed at its start: the live pods, the ones chosen to go, and how many are to stay. */
  datatype Plan = Plan(name: string, pods: map<PodKey, Pod>, victims: set<PodKey>, desired: int) {
    ghost predicate Valid() {
      && name != "" && desired >= 0
      && IsVictimSet(pods, pods.Keys, victims, |pods.Keys| - desired)
      && (forall k :: k in pods ==> k == KeyOf(pods[k]) && k.deployment == name)
    }

    function Survivors(): set<PodKey> { pods.Keys - victims }
  }

  datatype Move =
    | Reconcile(scan: seq<PodKey>, ids: seq<PodId>, now: string)
    | Drain(node: NodeId, spawn: Health.SpawnResult)
    | Liveness(registry: set<NodeId>, leases: set<NodeId>)

  // Statuses are fixed during a scale-down: a start handled meanwhile leaves its pod's status as it was.
  ghost predicate StatusesKept(s: State, s': State) {
    forall k :: k in s'.pods && k in s.pods ==> s'.pods[k].status == s.pods[k].status
  }

  ghost predicate MoveOk(s: State, name: string, m: Move) {
    match m
    case Reconcile(scan, ids, _) =>
      && ScansPods(s, name, scan)
      && (name in s.deployments ==> |ids| >= s.deployments[name].desired - |KeepLive(ReadAll(s, name, scan))|)
    case Drain(n, spawn) => StatusesKept(s, Drained(s, n, spawn))
    case Liveness(_, _) => true
  }

  ghost function Moved(s: State, name: string, m: Move): State
    requires MoveOk(s, name, m)
  {
    match m
    case Reconcile(scan, ids, now) => Reconciled(s, name, scan, ids, now)
    case Drain(n, spawn) => Drained(s, n, spawn)
    case Liveness(registry, leases) => s.(registry := registry, leases := leases)
  }

  ghost predicate Configured(s: State, plan: Plan) {
    plan.name in s.deployments && s.deployments[plan.name].desired == plan.desired && Keyed(s)
  }

  // Everything victim choice and removal look at.
  predicate SameStanding(p: Pod, q: Pod) {
    p.deployment == q.deployment && p.podId == q.podId && p.status == q.status && p.createdAt == q.createdAt
    && p.nodeId == q.nodeId
  }

  // Survivors keep their records, and nothing but the original pods is live.
  ghost predicate Records(s: State, plan: Plan) {
    && plan.Survivors() <= LiveOf(s, plan.name) <= plan.pods.Keys
    && (forall k :: k in LiveOf(s, plan.name) ==> SameStanding(s.pods[k], plan.pods[k]))
  }

  // Only victims are ever asked to stop.
  ghost predicate StopsOnlyVictims(s: State, plan: Plan) {
    forall n, k :: StopQueued(s, n, k) ==> k !in plan.Survivors()
  }

  // Every victim still recorded has a stop waiting in its node's queue.
  ghost predicate VictimsQueued(s: State, plan: Plan) {
    forall k :: k in plan.victims && k in plan.pods && k in LiveOf(s, plan.name) ==>
      StopQueued(s, plan.pods[k].nodeId, k)
  }

  ghost predicate Inv(s: State, plan: Plan, reconciled: bool) {
    && plan.Valid() && Configured(s, plan) && Records(s, plan) && StopsOnlyVictims(s, plan)
    && (reconciled ==> VictimsQueued(s, plan))
  }

  lemma NeverTooFew(s: State, plan: Plan)
    requires plan.Valid() && Records(s, plan)
    ensures |plan.Survivors()| == plan.desired <= |LiveOf(s, plan.name)|
    ensures |LiveOf(s, plan.name)| == plan.desired ==> LiveOf(s, plan.name) == plan.Survivors()
  {
    SubsetSize(plan.victims, plan.pods.Keys);
    SubsetSize(plan.Survivors(), LiveOf(s, plan.name));
  }

  lemma DrainEffect(s: State, n: NodeId, r: Health.SpawnResult)
    requires Queue(s, n) != []
    ensures var s', cmd := Drained(s, n, r), Queue(s, n)[0];
            && s'.deployments == s.deployments
            && (cmd.StopPod? ==> s'.pods == s.pods - {cmd.key} && StopQueued(s, n, cmd.key))
            && (cmd.StartPod? ==> s'.pods.Keys == s.pods.Keys)
            && (forall m, k :: StopQueued(s', m, k) ==> StopQueued(s, m, k))
            && (forall m, k :: StopQueued(s, m, k) ==> StopQueued(s', m, k) || cmd == StopPod(k))
  {
    hide Freed;
    var s', cmd := Drained(s, n, r), Queue(s, n)[0];
    assert Queue(s, n) == [cmd] + Queue(s', n);
    forall m, k
      ensures StopQueued(s', m, k) ==> StopQueued(s, m, k)
      ensures StopQueued(s, m, k) ==> StopQueued(s', m, k) || cmd == StopPod(k)
    {
    }
  }

  // A command changes no record but for its status and its process.
  lemma DrainKeepsStanding(s: State, n: NodeId, r: Health.SpawnResult)
    requires StatusesKept(s, Drained(s, n, r))
    ensures var s' := Drained(s, n, r); forall k :: k in s'.pods ==> k in s.pods && SameStanding(s'.pods[k], s.pods[k])
  {
    hide Freed;
  }

  // Losing at most one pod that is no survivor, and no standing.
  lemma DrainRecords(s: State, s': State, plan: Plan, gone: set<PodKey>)
    requires Configured(s, plan) && Records(s, plan) && gone !! plan.Survivors()
    requires s'.deployments == s.deployments && s'.pods.Keys == s.pods.Keys - gone
    requires forall k :: k in s'.pods ==> SameStanding(s'.pods[k], s.pods[k])
    ensures Configured(s', plan) && Records(s', plan) && LiveOf(s', plan.name) == LiveOf(s, plan.name) - gone
  {
  }

  lemma DrainKeeps(s: State, plan: Plan, reconciled: bool, n: NodeId, r: Health.SpawnResult)
    requires Inv(s, plan, reconciled) && StatusesKept(s, Drained(s, n, r))
    ensures Inv(Drained(s, n, r), plan, reconciled)
  {
    hide StopQueued, Drained, Configured, Records, LiveOf, IsVictimSet;
    if Queue(s, n) == [] {
      DrainEmpty(s, n, r);
    } else {
      var cmd := Queue(s, n)[0];
      DrainEffect(s, n, r);
      DrainKeepsStanding(s, n, r);
      DrainRecords(s, Drained(s, n, r), plan, if cmd.StopPod? then {cmd.key} else {});
    }
  }

  lemma DrainEmpty(s: State, n: NodeId, r: Health.SpawnResult)
    requires Queue(s, n) == []
    ensures Drained(s, n, r) == s
  {
  }

  lemma GoneAndLeft(keys: set<PodKey>, victims: set<PodKey>, all: set<PodKey>)
    requires victims <= keys && keys - victims <= all <= keys
    ensures keys - all <= victims && keys - (keys - all) == all && victims - (keys - all) == victims * all
    ensures |all| == |keys| - |keys - all|
  {
    SubsetSize(all, keys);
  }

  lemma VictimsLeft(plan: Plan, all: set<PodKey>)
    requires plan.Valid() && plan.Survivors() <= all <= plan.pods.Keys
    ensures IsVictimSet(plan.pods, all, plan.victims * all, |all| - plan.desired)
  {
    GoneAndLeft(plan.pods.Keys, plan.victims, all);
    hide IsVictimSet;
    VictimsStable(plan.pods, plan.pods.Keys, plan.victims, |plan.pods.Keys| - plan.desired, plan.pods.Keys - all);
  }

  lemma SameVictims(pods: map<PodKey, Pod>, other: map<PodKey, Pod>, all: set<PodKey>, victims: set<PodKey>, n: int)
    requires IsVictimSet(pods, all, victims, n) && all <= other.Keys
    requires forall k :: k in all ==> SameStanding(other[k], pods[k]) || SameStanding(pods[k], other[k])
    ensures IsVictimSet(other, all, victims, n)
  {
    hide StringLess;
  }

  // A reconcile part way through re-derives the original victims that are left.
  lemma FreshChoiceIsWhatIsLeft(s: State, plan: Plan, live: seq<Pod>)
    requires plan.Valid() && Records(s, plan) && Represents(s.pods, live, LiveOf(s, plan.name), plan.name)
    ensures |live| == |LiveOf(s, plan.name)| >= plan.desired
    ensures Represents(s.pods, SelectVictims(live, |live| - plan.desired), plan.victims * LiveOf(s, plan.name), plan.name)
  {
    hide Represents, IsVictimSet, SelectVictims, LiveOf;
    var all := LiveOf(s, plan.name);
    NeverTooFew(s, plan);
    RepresentsSubset(s.pods, live, all, plan.name);
    var n := |live| - plan.desired;
    SelectsVictimSet(s.pods, live, all, plan.name, n);
    var again := Elements(Keys(SelectVictims(live, n)));
    SameVictims(s.pods, plan.pods, all, again, n);
    VictimsLeft(plan, all);
    VictimSetUnique(plan.pods, all, again, plan.victims * all, n);
  }

  lemma DropEvictedKeeps(s: State, plan: Plan)
    requires Inv(s, plan, false)
    ensures Inv(s.(pods := s.pods - EvictedOf(s, plan.name)), plan, false)
    ensures LiveOf(s.(pods := s.pods - EvictedOf(s, plan.name)), plan.name) == LiveOf(s, plan.name)
  {
    hide StopQueued;
    var s' := s.(pods := s.pods - EvictedOf(s, plan.name));
    assert LiveOf(s', plan.name) == LiveOf(s, plan.name);
    SameQueues(s, s');
  }

  lemma SameQueues(s: State, s': State)
    requires s.queues == s'.queues
    ensures forall n, k :: StopQueued(s', n, k) <==> StopQueued(s, n, k)
  {
  }

  lemma RemovalEffectKeeps(s: State, s': State, plan: Plan)
    requires Inv(s, plan, false)
    requires RemovalEffect(s, s', plan.victims * LiveOf(s, plan.name), s.pods)
    ensures Inv(s', plan, true)
  {
    hide StopQueued, IsVictimSet;
    var live, live' := LiveOf(s, plan.name), LiveOf(s', plan.name);
    assert live' <= live;
    assert plan.Survivors() <= live';
  }

  // During a scale-down a reconcile only drops Evicted records and removes the excess.
  lemma ReconcileRemoves(s: State, plan: Plan, m: Move, live: seq<Pod>)
    requires plan.Valid() && Configured(s, plan) && m.Reconcile? && MoveOk(s, plan.name, m)
    requires live == KeepLive(ReadAll(s, plan.name, m.scan)) && |live| >= plan.desired
    ensures var s1 := s.(pods := s.pods - EvictedOf(s, plan.name));
            Moved(s, plan.name, m) ==
              if |live| > plan.desired then RemoveAll(s1, Live(s1), plan.name, SelectVictims(live, |live| - plan.desired))
              else s1
  {
    hide KeepLive, SelectVictims, RemoveAll, ScheduleMany, IsVictimSet, Keyed;
  }

  lemma ReconcileKeeps(s: State, plan: Plan, reconciled: bool, m: Move)
    requires Inv(s, plan, reconciled) && m.Reconcile? && MoveOk(s, plan.name, m)
    ensures Inv(Moved(s, plan.name, m), plan, true)
  {
    var live := KeepLive(ReadAll(s, plan.name, m.scan));
    var s1 := s.(pods := s.pods - EvictedOf(s, plan.name));
    assert Inv(s, plan, false) && Keyed(s);
    hide Inv, Moved, Represents, SelectVictims, KeepLive, LiveOf, EvictedOf, RemoveAll, Keyed, ReadAll, IsScan, Records;
    LiveRepresented(s, plan.name, m.scan);
    OnPlan(s, plan);
    FreshChoiceIsWhatIsLeft(s, plan, live);
    DropEvictedKeeps(s, plan);
    ReconcileRemoves(s, plan, m, live);
    if |live| > plan.desired {
      RemovalOnPlan(s, s1, plan, SelectVictims(live, |live| - plan.desired));
    } else {
      NoVictimLeft(s1, plan);
    }
  }

  lemma OnPlan(s: State, plan: Plan)
    requires Inv(s, plan, false)
    ensures plan.Valid() && Configured(s, plan) && Records(s, plan)
  {
  }

  lemma RemovalOnPlan(s: State, s1: State, plan: Plan, chosen: seq<Pod>)
    requires s1 == s.(pods := s.pods - EvictedOf(s, plan.name)) && Inv(s1, plan, false)
    requires Represents(s.pods, chosen, plan.victims * LiveOf(s, plan.name), plan.name)
    ensures Inv(RemoveAll(s1, Live(s1), plan.name, chosen), plan, true)
  {
    hide Represents, StopQueued, RemoveAll, Inv, RemovalEffect;
    RepresentsIn(s, s1, chosen, plan);
    RemoveAllEffect(s1, Live(s1), plan.name, chosen, s1.pods, plan.victims * LiveOf(s1, plan.name));
    RemovalEffectKeeps(s1, RemoveAll(s1, Live(s1), plan.name, chosen), plan);
  }

  lemma NoVictimLeft(s: State, plan: Plan)
    requires Inv(s, plan, false) && |LiveOf(s, plan.name)| <= plan.desired
    ensures Inv(s, plan, true)
  {
    hide StopQueued, IsVictimSet;
    NeverTooFew(s, plan);
  }

  lemma RepresentsIn(s: State, s1: State, chosen: seq<Pod>, plan: Plan)
    requires s1 == s.(pods := s.pods - EvictedOf(s, plan.name))
    requires Represents(s.pods, chosen, plan.victims * LiveOf(s, plan.name), plan.name)
    ensures Represents(s1.pods, chosen, plan.victims * LiveOf(s1, plan.name), plan.name)
  {
    assert LiveOf(s1, plan.name) == LiveOf(s, plan.name);
    forall i | 0 <= i < |chosen|
      ensures KeyOf(chosen[i]) in s1.pods && s1.pods[KeyOf(chosen[i])] == chosen[i]
    {
      RepresentsAt(s.pods, chosen, plan.victims * LiveOf(s, plan.name), plan.name, i);
    }
  }

  // ----- runs -----

  ghost predicate IsRun(s: State, name: string, moves: seq<Move>)
    decreases |moves|
  {
    moves == [] || (MoveOk(s, name, moves[0]) && IsRun(Moved(s, name, moves[0]), name, moves[1..]))
  }

  ghost function After(s: State, name: string, moves: seq<Move>): State
    requires IsRun(s, name, moves)
    decreases |moves|
  {
    if moves == [] then s else After(Moved(s, name, moves[0]), name, moves[1..])
  }

  ghost predicate NoStopsFor(s: State, name: string) {
    forall n, k: PodKey :: k.deployment == name ==> !StopQueued(s, n, k)
  }

  ghost predicate Reconciles(moves: seq<Move>) { exists i :: 0 <= i < |moves| && moves[i].Reconcile? }

  lemma {:induction false} InvOverRuns(s: State, plan: Plan, reconciled: bool, moves: seq<Move>)
    requires Inv(s, plan, reconciled) && IsRun(s, plan.name, moves)
    ensures Inv(After(s, plan.name, moves), plan, reconciled || Reconciles(moves))
    decreases |moves|
  {
    hide Inv, Moved;
    if moves != [] {
      var s' := Moved(s, plan.name, moves[0]);
      var reconciled' := reconciled || moves[0].Reconcile?;
      MoveKeeps(s, plan, reconciled, moves[0]);
      InvOverRuns(s', plan, reconciled', moves[1..]);
      if Reconciles(moves) && !moves[0].Reconcile? {
        var i :| 0 <= i < |moves| && moves[i].Reconcile?;
        assert moves[1..][i - 1].Reconcile?;
      }
      if Reconciles(moves[1..]) {
        var i :| 0 <= i < |moves[1..]| && moves[1..][i].Reconcile?;
        assert moves[i + 1].Reconcile?;
      }
      if reconciled' && !reconciled {
        assert moves[0].Reconcile?;
      }
    }
  }

  lemma MoveKeeps(s: State, plan: Plan, reconciled: bool, m: Move)
    requires Inv(s, plan, reconciled) && MoveOk(s, plan.name, m)
    ensures Inv(Moved(s, plan.name, m), plan, reconciled || m.Reconcile?)
  {
    hide StopQueued, Drained, Reconciled;
    match m
    case Reconcile(_, _, _) => ReconcileKeeps(s, plan, reconciled, m);
    case Drain(n, r) => DrainKeeps(s, plan, reconciled, n, r);
    case Liveness(registry, leases) =>
      var s' := s.(registry := registry, leases := leases);
      SameQueues(s, s');
      assert LiveOf(s', plan.name) == LiveOf(s, plan.name);
  }

  // Whatever the interleaving of reconciles, drains, duplicate stops and liveness changes: only the original victims
  // lose their records, the live count never falls below the desired one, and once a reconcile has run and no stop
  // for the deployment is left in any queue the count is exactly the desired one.
  lemma StableScaleDown(s: State, plan: Plan, moves: seq<Move>)
    requires Inv(s, plan, false) && IsRun(s, plan.name, moves)
    ensures var end := After(s, plan.name, moves);
            && plan.Survivors() <= LiveOf(end, plan.name)
            && |LiveOf(end, plan.name)| >= plan.desired
            && (Reconciles(moves) && NoStopsFor(end, plan.name) ==>
                  LiveOf(end, plan.name) == plan.Survivors() && |LiveOf(end, plan.name)| == plan.desired)
  {
    hide StopQueued;
    InvOverRuns(s, plan, false, moves);
    var end := After(s, plan.name, moves);
    NeverTooFew(end, plan);
    if Reconciles(moves) && NoStopsFor(end, plan.name) {
      forall k | k in LiveOf(end, plan.name)
        ensures k in plan.Survivors()
      {
        assert k.deployment == plan.name && k in plan.pods;
      }
    }
  }

  // The plan of the first reconcile starts the protocol.
  lemma PlanStarts(s: State, name: string, scan: seq<PodKey>)
    requires name != "" && name in s.deployments && 0 <= s.deployments[name].desired < |LiveOf(s, name)|
    requires Keyed(s) && ScansPods(s, name, scan)
    requires NoStopsFor(s, name)
    ensures var live := KeepLive(ReadAll(s, name, scan));
            && |live| == |LiveOf(s, name)|
            && Inv(s, Plan(name, map k | k in LiveOf(s, name) :: s.pods[k],
                           Elements(Keys(SelectVictims(live, |live| - s.deployments[name].desired))),
                           s.deployments[name].desired), false)
  {
    hide StopQueued, Represents, SelectVictims, VictimLess;
    var live, all := KeepLive(ReadAll(s, name, scan)), LiveOf(s, name);
    LiveRepresented(s, name, scan);
    var n := |live| - s.deployments[name].desired;
    SelectsVictimSet(s.pods, live, all, name, n);
    var pods := map k | k in all :: s.pods[k];
    var plan := Plan(name, pods, Elements(Keys(SelectVictims(live, n))), s.deployments[name].desired);
    SameVictims(s.pods, pods, all, plan.victims, n);
    assert plan.pods.Keys == all;
    assert plan.Valid();
    assert Records(s, plan);
    assert StopsOnlyVictims(s, plan);
  }
}
