/** The liveness lease: how many refreshes may fail before a live node looks dead (internal/node/node.go). */
module Lease {
  import opened Arithmetic

  /** The accepted configurations: `NewRegistrar` refuses any other. */
  predicate Accepted(interval: int, ttl: int) { interval > 0 && ttl > 0 && !(interval * 2 >= ttl) }

  /** One refresh of the lease, at a time, that reached the store or did not. */
  datatype Refresh = Refresh(at: int, ok: bool)

  // The first lease is published before the loop starts; afterwards the loop refreshes at least once per interval.
  ghost predicate IsHistory(h: seq<Refresh>, interval: int) {
    && h != [] && h[0].ok
    && (forall i :: 0 <= i < |h| - 1 ==> h[i].at < h[i + 1].at <= h[i].at + interval)
  }

  ghost predicate SucceedsWithin(h: seq<Refresh>, i: int, k: nat) {
    exists j :: 0 <= i <= j <= i + k && j < |h| && h[j].ok
  }

  // Never more than k failures in a row.
  ghost predicate FailsAtMost(h: seq<Refresh>, k: nat) {
    forall i {:trigger SucceedsWithin(h, i, k)} :: 0 <= i < |h| - k ==> SucceedsWithin(h, i, k)
  }

  // A refresh resets the time to live; the key is there until it runs out.
  ghost predicate Present(h: seq<Refresh>, ttl: int, x: int) {
    exists i :: 0 <= i < |h| && h[i].ok && h[i].at <= x < h[i].at + ttl
  }

  lemma {:induction false} LastSuccess(h: seq<Refresh>, interval: int, k: nat, j: nat) returns (i: nat)
    requires IsHistory(h, interval) && FailsAtMost(h, k) && j < |h|
    ensures i <= j <= i + k && h[i].ok && h[i].at <= h[j].at <= h[i].at + (j - i) * interval
    decreases j
  {
    if h[j].ok {
      i := j;
    } else {
      i := LastSuccessBy(h, interval, j);
      assert j > i + k ==> SucceedsWithin(h, i + 1, k);
    }
  }

  lemma {:induction false} LastSuccessBy(h: seq<Refresh>, interval: int, j: nat) returns (i: nat)
    requires IsHistory(h, interval) && j < |h|
    ensures i <= j && h[i].ok && (forall m :: i < m <= j ==> !h[m].ok)
    ensures h[i].at <= h[j].at <= h[i].at + (j - i) * interval
    decreases j
  {
    if h[j].ok {
      i := j;
    } else {
      i := LastSuccessBy(h, interval, j - 1);
      assert (j - i) * interval == (j - 1 - i) * interval + interval;
    }
  }

  // The refresh interval an instant falls into.
  lemma {:induction false} Locate(h: seq<Refresh>, interval: int, x: int, n: nat) returns (j: nat)
    requires IsHistory(h, interval) && n < |h| && h[0].at <= x <= h[n].at
    ensures j <= n && h[j].at <= x && (j == n || x < h[j + 1].at)
    decreases n
  {
    if x == h[n].at {
      j := n;
    } else if h[n - 1].at <= x {
      j := n - 1;
    } else {
      j := Locate(h, interval, x, n - 1);
    }
  }

  // With at most k failures in a row the lease is there at every instant, provided k + 1 intervals fit in the TTL.
  lemma LeaseSurvives(h: seq<Refresh>, interval: int, ttl: int, k: nat, x: int)
    requires interval > 0 && ttl > 0 && (k + 1) * interval <= ttl
    requires IsHistory(h, interval) && FailsAtMost(h, k) && h[0].at <= x <= h[|h| - 1].at
    ensures Present(h, ttl, x)
  {
    var j := Locate(h, interval, x, |h| - 1);
    var i := LastSuccess(h, interval, k, j);
    MulMonotone(interval, j - i + 1, k + 1);
    assert (j - i + 1) * interval == (j - i) * interval + interval;
    assert h[i].at <= x < h[i].at + ttl;
  }

  // A success, k failures at every tick, a success again.
  function Outage(interval: int, k: nat): seq<Refresh> {
    seq(k + 2, i requires 0 <= i < k + 2 => Refresh(i * interval, i == 0 || i == k + 1))
  }

  lemma OutageIsHistory(interval: int, k: nat)
    requires interval > 0
    ensures IsHistory(Outage(interval, k), interval)
  {
    var h := Outage(interval, k);
    forall i | 0 <= i < |h| - 1
      ensures h[i].at < h[i + 1].at <= h[i].at + interval
    {
      assert (i + 1) * interval == i * interval + interval;
    }
  }

  lemma OutageFailsAtMost(interval: int, k: nat)
    ensures FailsAtMost(Outage(interval, k), k)
  {
    var h := Outage(interval, k);
    assert |h| == k + 2 && h[0].ok && h[k + 1].ok;
    forall i | 0 <= i < |h| - k
      ensures SucceedsWithin(h, i, k)
    {
      var j := if i == 0 then 0 else k + 1;
      assert i <= j <= i + k && h[j].ok;
    }
  }

  // And no further: if k + 1 intervals exceed the TTL, k failures in a row make a live node disappear.
  lemma LeaseLapses(interval: int, ttl: int, k: nat)
    requires interval > 0 && ttl > 0 && (k + 1) * interval > ttl
    ensures var h := Outage(interval, k);
            && IsHistory(h, interval) && FailsAtMost(h, k)
            && h[0].at <= ttl <= h[|h| - 1].at && !Present(h, ttl, ttl)
  {
    OutageIsHistory(interval, k);
    OutageFailsAtMost(interval, k);
    hide IsHistory, FailsAtMost;
    var h := Outage(interval, k);
    assert h[0].at == 0 && h[k + 1].at == (k + 1) * interval;
    assert forall i :: 0 <= i < |h| && h[i].ok ==> i == 0 || i == k + 1;
  }

  // Every accepted configuration rides out single failures; two in a row it need not, whatever the TTL is said to
  // cover: a 4-second interval with a 10-second TTL is accepted and lapses.
  lemma AcceptedToleratesOne(h: seq<Refresh>, interval: int, ttl: int, x: int)
    requires Accepted(interval, ttl) && IsHistory(h, interval) && FailsAtMost(h, 1) && h[0].at <= x <= h[|h| - 1].at
    ensures Present(h, ttl, x)
    ensures Accepted(4, 10) && IsHistory(Outage(4, 2), 4) && FailsAtMost(Outage(4, 2), 2) && !Present(Outage(4, 2), 10, 10)
  {
    LeaseSurvives(h, interval, ttl, 1, x);
    LeaseLapses(4, 10, 2);
  }

  // The loop as it runs: the store keeps one expiry, moved by every refresh that gets through.
  method RunHeartbeatLoop(h: seq<Refresh>, interval: int, ttl: int) returns (expires: int)
    requires ttl > 0 && IsHistory(h, interval)
    ensures forall x :: x >= h[|h| - 1].at ==> (Present(h, ttl, x) <==> x < expires)
  {
    expires := h[0].at + ttl;
    ghost var latest := 0;
    for i := 1 to |h|
      invariant 0 <= latest < i && h[latest].ok && expires == h[latest].at + ttl
      invariant h[latest].at <= h[i - 1].at
      invariant forall m :: 0 <= m < i && h[m].ok ==> h[m].at <= h[latest].at
    {
      assert h[i - 1].at < h[i].at;
      if h[i].ok {
        expires, latest := h[i].at + ttl, i;
      }
    }
  }
}
