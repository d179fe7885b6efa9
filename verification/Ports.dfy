/** Host ports on one node (internal/supervisor/spawn.go). */
module Ports {
  import opened Collections
  import opened Schema

  const MIN_HOST_PORT := 20000
  const MAX_HOST_PORT := 60000
  const PORT_SCAN_LIMIT := 512

  predicate InPortRange(port: int) { MIN_HOST_PORT <= port <= MAX_HOST_PORT }

  // Evicted pods and failed launches keep their claim as long as the record stands.
  function Claimed(pods: map<PodKey, Pod>, node: NodeId): set<int> {
    set k | k in pods && pods[k].nodeId == node && pods[k].hostPort > 0 :: pods[k].hostPort
  }

  function ScanRange(n: nat): set<int> { set port | MIN_HOST_PORT <= port < MIN_HOST_PORT + n && InPortRange(port) }

  function Preferred(preferred: int): seq<int> {
    if InPortRange(preferred) then [preferred]
    else if preferred > 0 then [MIN_HOST_PORT + preferred % 1000]
    else []
  }

  // The declared port if it is usable, then the first 512 of the range.
  function Candidates(preferred: int): seq<int> {
    Preferred(preferred) + seq(PORT_SCAN_LIMIT, i => MIN_HOST_PORT + i)
  }

  predicate Usable(port: int, claimed: set<int>, busy: set<int>) {
    InPortRange(port) && port !in claimed && port !in busy
  }

  function FirstUsable(candidates: seq<int>, claimed: set<int>, busy: set<int>): Option<int> {
    if candidates == [] then None
    else if Usable(candidates[0], claimed, busy) then Some(candidates[0])
    else FirstUsable(candidates[1..], claimed, busy)
  }

  function Allocate(claimed: set<int>, busy: set<int>, preferred: int): Option<int> {
    FirstUsable(Candidates(preferred), claimed, busy)
  }

  lemma {:induction false} FirstUsableMeaning(candidates: seq<int>, claimed: set<int>, busy: set<int>)
    ensures var r := FirstUsable(candidates, claimed, busy);
            match r
            case Some(port) => port in candidates && Usable(port, claimed, busy)
            case None => forall port :: port in candidates ==> !Usable(port, claimed, busy)
    decreases |candidates|
  {
    if candidates != [] && !Usable(candidates[0], claimed, busy) {
      FirstUsableMeaning(candidates[1..], claimed, busy);
      assert candidates == [candidates[0]] + candidates[1..];
    }
  }

  lemma {:induction false} ScanRangeSize(n: nat)
    requires n <= PORT_SCAN_LIMIT
    ensures |ScanRange(n)| == n
  {
    if n > 0 {
      ScanRangeSize(n - 1);
      assert ScanRange(n) == ScanRange(n - 1) + {MIN_HOST_PORT + n - 1};
    } else {
      assert ScanRange(0) == {};
    }
  }

  // A port nobody claims comes back whenever fewer than 512 ports of the scan range are taken.
  lemma AllocationSucceeds(claimed: set<int>, busy: set<int>, preferred: int)
    ensures Allocate(claimed, busy, preferred).Some? ==>
              var port := Allocate(claimed, busy, preferred).value;
              MIN_HOST_PORT <= port <= MAX_HOST_PORT && port !in claimed && port !in busy
    ensures |ScanRange(PORT_SCAN_LIMIT) * (claimed + busy)| < PORT_SCAN_LIMIT ==>
              Allocate(claimed, busy, preferred).Some?
  {
    var candidates := Candidates(preferred);
    FirstUsableMeaning(candidates, claimed, busy);
    ScanRangeSize(PORT_SCAN_LIMIT);
    if Allocate(claimed, busy, preferred).None? {
      forall port | port in ScanRange(PORT_SCAN_LIMIT)
        ensures port in claimed + busy
      {
        assert candidates[|Preferred(preferred)| + (port - MIN_HOST_PORT)] == port;
        assert port in candidates;
      }
      assert ScanRange(PORT_SCAN_LIMIT) * (claimed + busy) == ScanRange(PORT_SCAN_LIMIT);
    }
  }

  // A single replica keeps the port its deployment declared.
  lemma PreferredWins(claimed: set<int>, busy: set<int>, preferred: int)
    requires Usable(preferred, claimed, busy)
    ensures Allocate(claimed, busy, preferred) == Some(preferred)
  {
    assert Candidates(preferred)[0] == preferred;
  }

  // A declared port outside the range is mapped into its first thousand.
  lemma MappedPreferredWins(claimed: set<int>, busy: set<int>, preferred: int)
    requires preferred > 0 && !InPortRange(preferred) && Usable(MIN_HOST_PORT + preferred % 1000, claimed, busy)
    ensures Allocate(claimed, busy, preferred) == Some(MIN_HOST_PORT + preferred % 1000)
  {
    assert Candidates(preferred)[0] == MIN_HOST_PORT + preferred % 1000;
  }

  lemma {:induction false} FirstOfRange(lo: int, n: nat, claimed: set<int>, busy: set<int>, q: int)
    requires lo <= q < lo + n && Usable(q, claimed, busy)
    ensures var r := FirstUsable(seq(n, i => lo + i), claimed, busy); r.Some? && r.value <= q
    decreases n
  {
    var range := seq(n, i => lo + i);
    assert range[0] == lo;
    if !Usable(lo, claimed, busy) {
      assert range[1..] == seq(n - 1, i => lo + 1 + i);
      FirstOfRange(lo + 1, n - 1, claimed, busy, q);
    }
  }

  // Failing that, the lowest usable port of the scan range is taken.
  lemma LowestOtherwise(claimed: set<int>, busy: set<int>, preferred: int, q: int)
    requires forall p :: p in Preferred(preferred) ==> !Usable(p, claimed, busy)
    requires q in ScanRange(PORT_SCAN_LIMIT) && Usable(q, claimed, busy)
    ensures Allocate(claimed, busy, preferred).Some? && Allocate(claimed, busy, preferred).value <= q
  {
    var range := seq(PORT_SCAN_LIMIT, i => MIN_HOST_PORT + i);
    FirstOfRange(MIN_HOST_PORT, PORT_SCAN_LIMIT, claimed, busy, q);
    if Preferred(preferred) == [] {
      assert Candidates(preferred) == range;
    } else {
      assert Preferred(preferred)[0] in Preferred(preferred);
      assert Candidates(preferred)[0] == Preferred(preferred)[0] && Candidates(preferred)[1..] == range;
    }
  }

  method ClaimedPorts(pods: map<PodKey, Pod>, scan: seq<PodKey>, node: NodeId) returns (claimed: set<int>)
    requires IsScan(scan, pods.Keys)
    ensures claimed == Claimed(pods, node)
  {
    claimed := {};
    for i := 0 to |scan|
      invariant claimed == set k | k in scan[..i] && k in pods && pods[k].nodeId == node && pods[k].hostPort > 0
                           :: pods[k].hostPort
    {
      assert scan[i] in Elements(scan) && scan[..i + 1] == scan[..i] + [scan[i]];
      var pod := pods[scan[i]];
      if pod.nodeId != node { continue; }
      if pod.hostPort > 0 {
        claimed := claimed + {pod.hostPort};
      }
    }
    assert scan[..|scan|] == scan && forall k :: k in pods ==> k in scan;
  }

  method AllocateHostPort(claimed: set<int>, busy: set<int>, preferred: int) returns (port: Option<int>)
    ensures port == Allocate(claimed, busy, preferred)
  {
    var candidates := [];
    if MIN_HOST_PORT <= preferred <= MAX_HOST_PORT {
      candidates := candidates + [preferred];
    } else if preferred > 0 {
      candidates := candidates + [MIN_HOST_PORT + preferred % 1000];
    }
    for i := 0 to PORT_SCAN_LIMIT
      invariant candidates == Preferred(preferred) + seq(i, j => MIN_HOST_PORT + j)
    {
      candidates := candidates + [MIN_HOST_PORT + i];
    }
    assert candidates[0..] == candidates;
    for i := 0 to |candidates|
      invariant Allocate(claimed, busy, preferred) == FirstUsable(candidates[i..], claimed, busy)
    {
      assert candidates[i..][1..] == candidates[i + 1..];
      var p := candidates[i];
      if p < MIN_HOST_PORT || p > MAX_HOST_PORT || p in claimed { continue; }
      if p in busy { continue; }
      return Some(p);
    }
    port := None;
  }
}
