/** Probing and restarting one pod (internal/supervisor/health.go). Times are nanoseconds, stamps are Unix seconds. */
module Health {
  import opened Arithmetic
  import opened Collections
  import opened Schema

  const SECOND := 1_000_000_000

  datatype HealthConfig = HealthConfig(threshold: int, base: int, max: int) {
    // The delays are whole seconds, as they are stored.
    predicate Valid() { threshold >= 1 && base >= SECOND && max >= base && base % SECOND == 0 && max % SECOND == 0 }
  }

  // ----- backoff -----

  function Pow2(n: nat): nat { if n == 0 then 1 else 2 * Pow2(n - 1) }

  // Doubling from the base, capped.
  function Backoff(n: int, base: int, max: int): int {
    if n <= 0 then base else Min(base * Pow2(n), max)
  }

  lemma {:induction false} Pow2Grows(m: nat, n: nat)
    requires m <= n
    ensures 1 <= Pow2(m) <= Pow2(n)
    decreases n
  {
    if n > 0 { Pow2Grows(if m < n then m else n - 1, n - 1); }
  }

  lemma ProductGrows(base: int, m: nat, n: nat)
    requires base > 0 && m <= n
    ensures base <= base * Pow2(m) <= base * Pow2(n)
  {
    Pow2Grows(m, n);
    Pow2Grows(0, m);
    MulMonotone(base, 1, Pow2(m));
    MulMonotone(base, Pow2(m), Pow2(n));
  }

  method BackoffFor(restartCount: int, cfg: HealthConfig) returns (delay: int)
    requires cfg.base > 0
    ensures delay == Backoff(restartCount, cfg.base, cfg.max)
  {
    var n := if restartCount < 0 then 0 else restartCount;
    delay := cfg.base;
    for i := 0 to n
      invariant delay == cfg.base * Pow2(i) && (i > 0 ==> delay < cfg.max)
    {
      delay := delay * 2;
      assert delay == cfg.base * Pow2(i + 1);
      if delay >= cfg.max {
        ProductGrows(cfg.base, i + 1, n);
        return cfg.max;
      }
    }
  }

  lemma BackoffWhole(n: int, cfg: HealthConfig)
    requires cfg.Valid()
    ensures Backoff(n, cfg.base, cfg.max) % SECOND == 0 && Backoff(n, cfg.base, cfg.max) >= SECOND
  {
    if n > 0 {
      ProductGrows(cfg.base, 0, n);
      assert cfg.base == SECOND * (cfg.base / SECOND);
      assert cfg.base * Pow2(n) == SECOND * (cfg.base / SECOND * Pow2(n));
      MultipleOf(cfg.base / SECOND * Pow2(n));
    }
  }

  lemma MultipleOf(x: int)
    ensures (SECOND * x) % SECOND == 0
  {
  }

  // ----- one check -----

  /** What the spawn inside a restart came to. */
  datatype SpawnResult = AlreadyAlive | Refused | SpawnFailed | SpawnedOk(pid: int, start: nat, port: int)

  function AfterSpawn(p: Pod, r: SpawnResult): Pod {
    match r
    case AlreadyAlive => p
    case Refused => p
    case SpawnFailed => p.(status := Failed)
    case SpawnedOk(pid, start, port) => p.(status := Running, pid := pid, pidStart := start, hostPort := port)
  }

  predicate Waiting(p: Pod) { p.status == CrashLoopBackOff || p.status == Failed }

  function Delay(p: Pod, cfg: HealthConfig): int {
    if p.backoffSeconds * SECOND <= 0 then cfg.base else p.backoffSeconds * SECOND
  }

  // Derived from the stored stamp, so a restarted agent resumes the same schedule.
  predicate RestartDue(p: Pod, cfg: HealthConfig, now: int) {
    !(p.lastRestartAt > 0 && now - p.lastRestartAt * SECOND < Delay(p, cfg))
  }

  // The attempt is counted before the spawn, so a pod that cannot spawn still backs off.
  function Counted(p: Pod, cfg: HealthConfig, now: int): Pod {
    p.(restartCount := p.restartCount + 1,
       backoffSeconds := Backoff(p.restartCount + 1, cfg.base, cfg.max) / SECOND,
       lastRestartAt := now / SECOND, failures := 0, status := CrashLoopBackOff)
  }

  function Checked(p: Pod, cfg: HealthConfig, now: int, healthy: bool, r: SpawnResult): Pod {
    if p.status == Evicted then p
    else if Waiting(p) then
      if RestartDue(p, cfg, now) then AfterSpawn(Counted(p, cfg, now), r) else p
    else if healthy then p.(failures := 0)
    else if p.failures + 1 < cfg.threshold then p.(failures := p.failures + 1)
    else p.(status := Failed, failures := p.failures + 1,
            backoffSeconds := Backoff(p.restartCount, cfg.base, cfg.max) / SECOND, lastRestartAt := now / SECOND)
  }

  /** A pod hash as the health loop updates it. */
  class PodRecord {
    var pod: Pod

    constructor (pod: Pod)
      ensures this.pod == pod
    {
      this.pod := pod;
    }

    method CheckPod(cfg: HealthConfig, now: int, healthy: bool, r: SpawnResult)
      requires cfg.base > 0
      modifies this
      ensures pod == Checked(old(pod), cfg, now, healthy, r)
    {
      if pod.status == Evicted {
        return;
      }
      if pod.status == CrashLoopBackOff || pod.status == Failed {
        RestartIfBackoffElapsed(cfg, now, r);
        return;
      }
      if healthy {
        if pod.failures != 0 {
          pod := pod.(failures := 0);
        }
        return;
      }
      var failures := pod.failures + 1;
      if failures < cfg.threshold {
        pod := pod.(failures := failures);
        return;
      }
      var delay := BackoffFor(pod.restartCount, cfg);
      pod := pod.(status := Failed, failures := failures, backoffSeconds := delay / SECOND,
                  lastRestartAt := now / SECOND);
    }

    method RestartIfBackoffElapsed(cfg: HealthConfig, now: int, r: SpawnResult)
      requires cfg.base > 0
      modifies this
      ensures pod == if RestartDue(old(pod), cfg, now) then AfterSpawn(Counted(old(pod), cfg, now), r) else old(pod)
    {
      var wait := pod.backoffSeconds * SECOND;
      if wait <= 0 {
        wait := cfg.base;
      }
      if pod.lastRestartAt > 0 && now - pod.lastRestartAt * SECOND < wait {
        return;
      }
      var next := BackoffFor(pod.restartCount + 1, cfg);
      pod := pod.(restartCount := pod.restartCount + 1, backoffSeconds := next / SECOND,
                  lastRestartAt := now / SECOND, failures := 0, status := CrashLoopBackOff);
      pod := AfterSpawn(pod, r);
    }
  }

  // ----- runs -----

  /** A probe moving the pod to Failed: when, and how many restarts had been counted by then. */
  datatype Declaration = Declaration(at: int, restarts: int)

  /** A pod's life: its record, every probe result since the last counted restart, the time of every counted restart
      attempt, every declaration of failure, and the latest time seen. */
  datatype Life = Life(pod: Pod, probes: seq<bool>, attempts: seq<int>, declared: seq<Declaration>, clock: int)

  datatype Event =
    | Check(at: int, healthy: bool, spawn: SpawnResult)
    | Start(spawn: SpawnResult)     // a start command, however late, or the respawn of a restarted agent
    | Adopt                         // a restarted agent finds the process alive
    | EvictPod

  predicate Possible(l: Life, e: Event) { e.Check? ==> e.at >= l.clock && e.at >= SECOND }

  predicate Probed(p: Pod) { p.status != Evicted && !Waiting(p) }

  predicate Attempts(p: Pod, cfg: HealthConfig, now: int) { p.status != Evicted && Waiting(p) && RestartDue(p, cfg, now) }

  predicate Declares(p: Pod, cfg: HealthConfig, healthy: bool) {
    Probed(p) && !healthy && p.failures + 1 >= cfg.threshold
  }

  function Lived(l: Life, e: Event, cfg: HealthConfig): Life {
    match e
    case Check(at, healthy, spawn) =>
      Life(Checked(l.pod, cfg, at, healthy, spawn),
           if Attempts(l.pod, cfg, at) then [] else if Probed(l.pod) then l.probes + [healthy] else l.probes,
           if Attempts(l.pod, cfg, at) then l.attempts + [at] else l.attempts,
           if Declares(l.pod, cfg, healthy) then l.declared + [Declaration(at, l.pod.restartCount)] else l.declared,
           at)
    case Start(spawn) => l.(pod := AfterSpawn(l.pod, spawn))
    case Adopt => l.(pod := l.pod.(status := Running))
    case EvictPod => l.(pod := l.pod.(status := Evicted))
  }

  ghost predicate IsRun(l: Life, events: seq<Event>, cfg: HealthConfig)
    decreases |events|
  {
    events == [] || (Possible(l, events[0]) && IsRun(Lived(l, events[0], cfg), events[1..], cfg))
  }

  function After(l: Life, events: seq<Event>, cfg: HealthConfig): Life
    decreases |events|
  {
    if events == [] then l else After(Lived(l, events[0], cfg), events[1..], cfg)
  }

  predicate NewPod(p: Pod) { p.restartCount == 0 && p.failures == 0 && p.backoffSeconds == 0 && p.lastRestartAt == 0 }

  // ----- restart spacing -----

  // Attempt k+1 comes, in stamps, at least Backoff(k) seconds after attempt k.
  predicate SpacedAt(attempts: seq<int>, cfg: HealthConfig, k: int)
    requires 1 <= k < |attempts|
  {
    attempts[k] / SECOND - attempts[k - 1] / SECOND >= Backoff(k, cfg.base, cfg.max) / SECOND
  }

  ghost predicate Spaced(attempts: seq<int>, cfg: HealthConfig) {
    forall k {:trigger SpacedAt(attempts, cfg, k)} :: 1 <= k < |attempts| ==> SpacedAt(attempts, cfg, k)
  }

  ghost predicate SpacingInv(l: Life, cfg: HealthConfig) {
    && l.pod.restartCount == |l.attempts| && Spaced(l.attempts, cfg)
    && l.pod.lastRestartAt * SECOND <= Max(l.clock, 0)
    && (|l.attempts| > 0 ==>
          && l.pod.lastRestartAt >= l.attempts[|l.attempts| - 1] / SECOND >= 1
          && l.pod.backoffSeconds == Backoff(|l.attempts|, cfg.base, cfg.max) / SECOND)
  }

  lemma WaitedLongEnough(l: Life, cfg: HealthConfig, at: int)
    requires cfg.Valid() && SpacingInv(l, cfg) && |l.attempts| > 0 && RestartDue(l.pod, cfg, at)
    ensures at / SECOND - l.attempts[|l.attempts| - 1] / SECOND >= Backoff(|l.attempts|, cfg.base, cfg.max) / SECOND
  {
    BackoffWhole(|l.attempts|, cfg);
    assert at >= (l.pod.lastRestartAt + l.pod.backoffSeconds) * SECOND;
  }

  lemma SpacingStep(l: Life, e: Event, cfg: HealthConfig)
    requires cfg.Valid() && SpacingInv(l, cfg) && Possible(l, e)
    ensures SpacingInv(Lived(l, e, cfg), cfg)
  {
    hide Backoff, RestartDue;
    var l' := Lived(l, e, cfg);
    if e.Check? && Attempts(l.pod, cfg, e.at) {
      if |l.attempts| > 0 {
        WaitedLongEnough(l, cfg, e.at);
      }
      forall k | 1 <= k < |l'.attempts|
        ensures SpacedAt(l'.attempts, cfg, k)
      {
        if k < |l.attempts| { assert SpacedAt(l.attempts, cfg, k); }
      }
    }
  }

  // The series of capped, doubling delays between the first and the n-th attempt.
  function DelaySum(n: nat, cfg: HealthConfig): int {
    if n <= 1 then 0 else DelaySum(n - 1, cfg) + Backoff(n - 1, cfg.base, cfg.max) / SECOND
  }

  lemma {:induction false} SpacingAddsUp(attempts: seq<int>, cfg: HealthConfig, n: nat)
    requires Spaced(attempts, cfg) && 1 <= n <= |attempts|
    ensures attempts[n - 1] / SECOND - attempts[0] / SECOND >= DelaySum(n, cfg)
  {
    if n > 1 {
      SpacingAddsUp(attempts, cfg, n - 1);
      assert SpacedAt(attempts, cfg, n - 1);
    }
  }

  lemma {:induction false} SpacingOverRuns(l: Life, events: seq<Event>, cfg: HealthConfig)
    requires cfg.Valid() && SpacingInv(l, cfg) && IsRun(l, events, cfg)
    ensures SpacingInv(After(l, events, cfg), cfg)
    decreases |events|
  {
    hide SpacingInv, Lived, Possible;
    if events != [] {
      SpacingStep(l, events[0], cfg);
      SpacingOverRuns(Lived(l, events[0], cfg), events[1..], cfg);
    }
  }

  // A stamp drops less than a second, so stamps w apart are times more than w less one second apart.
  lemma StampsToTimes(a: int, b: int, w: int)
    requires b / SECOND - a / SECOND >= w
    ensures b - a > w * SECOND - SECOND
  {
  }

  // Over every run mixing probes, declared failures, failed spawns, late start commands and agent restarts: attempt
  // k+1 is stamped at least min(base * 2^k, max) after attempt k, so n attempts take at least the summed series. On
  // the wall clock, either is short by less than a second.
  lemma RestartSpacing(l: Life, events: seq<Event>, cfg: HealthConfig)
    requires cfg.Valid() && NewPod(l.pod) && l.attempts == [] && IsRun(l, events, cfg)
    ensures var attempts := After(l, events, cfg).attempts;
            && (forall k :: 1 <= k < |attempts| ==>
                  && attempts[k] / SECOND - attempts[k - 1] / SECOND >= Min(cfg.base * Pow2(k), cfg.max) / SECOND
                  && attempts[k] - attempts[k - 1] > Min(cfg.base * Pow2(k), cfg.max) - SECOND)
            && (attempts != [] ==>
                  && attempts[|attempts| - 1] / SECOND - attempts[0] / SECOND >= DelaySum(|attempts|, cfg)
                  && attempts[|attempts| - 1] - attempts[0] > DelaySum(|attempts|, cfg) * SECOND - SECOND)
  {
    SpacingOverRuns(l, events, cfg);
    var attempts := After(l, events, cfg).attempts;
    forall k | 1 <= k < |attempts|
      ensures attempts[k] / SECOND - attempts[k - 1] / SECOND >= Min(cfg.base * Pow2(k), cfg.max) / SECOND
      ensures attempts[k] - attempts[k - 1] > Min(cfg.base * Pow2(k), cfg.max) - SECOND
    {
      assert SpacedAt(attempts, cfg, k);
      BackoffWhole(k, cfg);
      StampsToTimes(attempts[k - 1], attempts[k], Backoff(k, cfg.base, cfg.max) / SECOND);
    }
    if attempts != [] {
      SpacingAddsUp(attempts, cfg, |attempts|);
      StampsToTimes(attempts[0], attempts[|attempts| - 1], DelaySum(|attempts|, cfg));
    }
  }

  // On the wall clock the guarantee is weaker: stamps drop the fraction of a second, so a restart due w after an
  // action at time t may come as early as w minus that fraction, and not before. It is w exactly on whole seconds.
  lemma EarliestRestart(p: Pod, cfg: HealthConfig, t: int, at: int)
    requires t >= SECOND && p.lastRestartAt == t / SECOND && p.backoffSeconds >= 1
    ensures RestartDue(p, cfg, at) <==> at - t >= p.backoffSeconds * SECOND - t % SECOND
  {
  }

  // ----- from declaration to restart -----

  // A probe that declares the pod Failed starts its backoff: the restart becomes due min(base * 2^n, max) later, less
  // the fraction of a second the stamp dropped, and not before.
  lemma DeclaringStartsBackoff(p: Pod, cfg: HealthConfig, now: int, healthy: bool, r: SpawnResult, at: int)
    requires cfg.Valid() && now >= SECOND && p.restartCount >= 0
    requires Probed(p) && Checked(p, cfg, now, healthy, r).status == Failed
    ensures RestartDue(Checked(p, cfg, now, healthy, r), cfg, at) <==>
              at - now >= Min(cfg.base * Pow2(p.restartCount), cfg.max) - now % SECOND
  {
    BackoffWhole(p.restartCount, cfg);
    BackoffIs(p.restartCount, cfg);
    EarliestRestart(Checked(p, cfg, now, healthy, r), cfg, now, at);
  }

  lemma BackoffIs(n: nat, cfg: HealthConfig)
    requires cfg.Valid()
    ensures Backoff(n, cfg.base, cfg.max) == Min(cfg.base * Pow2(n), cfg.max)
  {
  }

  lemma BackoffGrows(m: nat, n: nat, cfg: HealthConfig)
    requires cfg.Valid() && m <= n
    ensures Backoff(m, cfg.base, cfg.max) <= Backoff(n, cfg.base, cfg.max)
  {
    BackoffIs(m, cfg);
    BackoffIs(n, cfg);
    ProductGrows(cfg.base, m, n);
  }

  // The stored deadline lies past the backoff of every declaration so far.
  ghost predicate DeadlineInv(l: Life, cfg: HealthConfig) {
    && l.pod.restartCount >= 0 && 0 <= l.pod.lastRestartAt * SECOND <= Max(l.clock, 0)
    && (forall i :: 0 <= i < |l.declared| ==>
          && 0 <= l.declared[i].restarts <= l.pod.restartCount && l.pod.lastRestartAt >= 1 && l.pod.backoffSeconds >= 1
          && l.pod.lastRestartAt + l.pod.backoffSeconds
             >= l.declared[i].at / SECOND + Backoff(l.declared[i].restarts, cfg.base, cfg.max) / SECOND
          && l.declared[i].at <= l.clock)
  }

  lemma DeadlineStep(l: Life, e: Event, cfg: HealthConfig)
    requires cfg.Valid() && DeadlineInv(l, cfg) && Possible(l, e)
    ensures DeadlineInv(Lived(l, e, cfg), cfg)
  {
    hide Backoff;
    if e.Check? {
      var n := l.pod.restartCount;
      BackoffWhole(n, cfg);
      BackoffWhole(n + 1, cfg);
      forall i | 0 <= i < |l.declared|
        ensures Backoff(l.declared[i].restarts, cfg.base, cfg.max) / SECOND <= Backoff(n, cfg.base, cfg.max) / SECOND
             <= Backoff(n + 1, cfg.base, cfg.max) / SECOND
      {
        BackoffGrows(l.declared[i].restarts, n, cfg);
        BackoffGrows(n, n + 1, cfg);
      }
    }
  }

  lemma {:induction false} DeadlineOverRuns(l: Life, events: seq<Event>, cfg: HealthConfig)
    requires cfg.Valid() && DeadlineInv(l, cfg) && IsRun(l, events, cfg)
    ensures DeadlineInv(After(l, events, cfg), cfg)
    decreases |events|
  {
    hide DeadlineInv, Lived, Possible;
    if events != [] {
      DeadlineStep(l, events[0], cfg);
      DeadlineOverRuns(Lived(l, events[0], cfg), events[1..], cfg);
    }
  }

  // Over every run, a counted restart, the first included, comes more than min(base * 2^n, max) less one second after
  // every declaration before it, n being the restarts counted when it was made.
  lemma RestartAfterDeclaration(l: Life, events: seq<Event>, at: int, cfg: HealthConfig)
    requires cfg.Valid() && NewPod(l.pod) && l.declared == [] && IsRun(l, events, cfg)
    requires at >= After(l, events, cfg).clock && Attempts(After(l, events, cfg).pod, cfg, at)
    ensures forall d :: d in After(l, events, cfg).declared ==>
              d.restarts >= 0 && at - d.at > Min(cfg.base * Pow2(d.restarts), cfg.max) - SECOND
  {
    DeadlineOverRuns(l, events, cfg);
    var end := After(l, events, cfg);
    forall d | d in end.declared
      ensures d.restarts >= 0 && at - d.at > Min(cfg.base * Pow2(d.restarts), cfg.max) - SECOND
    {
      var i :| 0 <= i < |end.declared| && end.declared[i] == d;
      BackoffWhole(d.restarts, cfg);
      BackoffIs(d.restarts, cfg);
      hide Backoff, Pow2;
      assert at >= (end.pod.lastRestartAt + end.pod.backoffSeconds) * SECOND;
    }
  }

  // ----- probe threshold -----

  // How many probes failed since the last success.
  function Trailing(probes: seq<bool>): nat {
    if probes == [] || probes[|probes| - 1] then 0 else 1 + Trailing(probes[..|probes| - 1])
  }

  lemma {:induction false} TrailingAllFailed(probes: seq<bool>, n: nat)
    requires n <= Trailing(probes)
    ensures n <= |probes| && forall i :: |probes| - n <= i < |probes| ==> !probes[i]
    decreases |probes|
  {
    if n > 0 {
      TrailingAllFailed(probes[..|probes| - 1], n - 1);
    }
  }

  lemma TrailingGrows(probes: seq<bool>, healthy: bool)
    ensures Trailing(probes + [healthy]) == if healthy then 0 else Trailing(probes) + 1
  {
    assert (probes + [healthy])[..|probes|] == probes;
  }

  // The stored counter never runs ahead of the probes that really failed.
  lemma CounterStep(l: Life, e: Event, cfg: HealthConfig)
    requires 0 <= l.pod.failures <= Trailing(l.probes)
    ensures var l' := Lived(l, e, cfg); 0 <= l'.pod.failures <= Trailing(l'.probes)
  {
    hide Trailing;
    if e.Check? && Probed(l.pod) {
      TrailingGrows(l.probes, e.healthy);
    }
  }

  lemma {:induction false} CounterOverRuns(l: Life, events: seq<Event>, cfg: HealthConfig)
    requires 0 <= l.pod.failures <= Trailing(l.probes)
    ensures var l' := After(l, events, cfg); 0 <= l'.pod.failures <= Trailing(l'.probes)
    decreases |events|
  {
    hide Trailing, Lived;
    if events != [] {
      CounterStep(l, events[0], cfg);
      CounterOverRuns(Lived(l, events[0], cfg), events[1..], cfg);
    }
  }

  // Whatever restarts, late start commands and adoptions came before, a probe moves a pod to Failed only when the
  // last `threshold` probes of it since its last counted restart all failed, with no success among them.
  lemma FailedOnlyAfterThreshold(l: Life, events: seq<Event>, at: int, healthy: bool, spawn: SpawnResult,
                                 cfg: HealthConfig)
    requires cfg.threshold >= 1 && NewPod(l.pod) && l.probes == []
    requires var before := After(l, events, cfg).pod;
             Probed(before) && Checked(before, cfg, at, healthy, spawn).status == Failed
    ensures var probes := Lived(After(l, events, cfg), Check(at, healthy, spawn), cfg).probes;
            cfg.threshold <= |probes| && forall i :: |probes| - cfg.threshold <= i < |probes| ==> !probes[i]
  {
    CounterOverRuns(l, events, cfg);
    var before := After(l, events, cfg);
    TrailingGrows(before.probes, healthy);
    TrailingAllFailed(before.probes + [healthy], cfg.threshold);
  }

  function FailingChecks(ats: seq<int>): (r: seq<Event>)
    ensures |r| == |ats|
  {
    if ats == [] then [] else [Check(ats[0], false, Refused)] + FailingChecks(ats[1..])
  }

  // The other direction: as many failed probes in a row as are missing to the threshold do declare the pod Failed.
  lemma {:induction false} ConsecutiveFailuresDeclare(l: Life, ats: seq<int>, cfg: HealthConfig)
    requires Probed(l.pod) && |ats| == cfg.threshold - l.pod.failures >= 1
    ensures After(l, FailingChecks(ats), cfg).pod.status == Failed
    decreases |ats|
  {
    var l' := Lived(l, Check(ats[0], false, Refused), cfg);
    assert FailingChecks(ats)[1..] == FailingChecks(ats[1..]);
    if |ats| == 1 {
      assert FailingChecks(ats[1..]) == [];
    } else {
      ConsecutiveFailuresDeclare(l', ats[1..], cfg);
    }
  }
}
