/** Edits that are not atomic: Apply reads the record and writes it back later (internal/api/store.go). Exactly when
    does the write leave the autoscaler's cooldowns intact? */
module StaleEdits {
  import opened Collections
  import opened Schema
  import opened Autoscale
  import opened Scaling

  function LastChange(dep: Deployment): int { Max(dep.lastScaleUpAt, dep.lastScaleDownAt) }

  // The record after the late write.
  function Saved(t: Track, snapshot: Deployment, req: Request): Track { t.(dep := Written(t.dep, snapshot, req)) }

  // A reading an edit may be holding, and a request it may be carrying.
  ghost predicate Pending(t: Track, snapshot: Deployment, req: Request, c: Cooldowns) {
    Inv(t, c) && snapshot in t.readings && req.Valid()
  }

  // The stamps stay true exactly when none that was set has moved since the read.
  lemma StampsSurviveIff(t: Track, snapshot: Deployment, req: Request, c: Cooldowns)
    requires Pending(t, snapshot, req, c)
    ensures StampsTrue(Saved(t, snapshot, req).dep, t.log) <==> Unmoved(t.dep, snapshot)
  {
    hide Latest;
  }

  lemma WriteMovesBack(t: Track, snapshot: Deployment, req: Request, c: Cooldowns)
    requires Pending(t, snapshot, req, c)
    ensures var w := Saved(t, snapshot, req).dep;
            && InBounds(w) && 0 <= w.lastScaleUpAt <= t.dep.lastScaleUpAt
            && 0 <= w.lastScaleDownAt <= t.dep.lastScaleDownAt
  {
    hide Latest;
  }

  // ----- the next tick -----

  // A tick that changes the count and breaks a cooldown by it.
  ghost predicate TooEarly(t: Track, now: int, pods: seq<Samples>, isUp: bool, c: Cooldowns) {
    && now >= t.clock && now >= 1
    && var t' := Next(t, Tick(now, pods), c);
       t'.log == t.log + [Action(isUp, now)] && !CooledDown(t'.log, c)
  }

  lemma OneSample(x: nat)
    ensures Observed([[Some(x)]]) == Some(x)
  {
    LastThreeCount([], x, 0, 0);
  }

  // Load enough to scale up, and none at all.
  lemma TickUp(t: Track, now: int, c: Cooldowns)
    requires InBounds(t.dep) && t.dep.desired < t.dep.maxReplicas && now - t.dep.lastScaleUpAt >= c.up
    ensures Next(t, Tick(now, [[Some(t.dep.target + 1)]]), c).log == t.log + [Action(true, now)]
  {
    OneSample(t.dep.target + 1);
    UnclampedIsLeast(t.dep, t.dep.target + 1);
    hide Observed, Unclamped;
  }

  lemma TickDown(t: Track, now: int, c: Cooldowns)
    requires InBounds(t.dep) && t.dep.desired > t.dep.minReplicas && now - LastChange(t.dep) >= c.down
    ensures Next(t, Tick(now, [[Some(0)]]), c).log == t.log + [Action(false, now)]
  {
    OneSample(0);
    WantedIff(t.dep, 0, t.dep.minReplicas);
    hide Observed, Unclamped;
  }

  // A change breaks a cooldown exactly when it comes too soon after the latest change that counts.
  lemma BreaksIff(log: seq<Action>, clock: int, a: Action, c: Cooldowns)
    requires CooledDown(log, c) && InOrder(log, clock) && a.at >= clock
    ensures var u := if a.isUp then Latest(log, true) else Max(Latest(log, true), Latest(log, false));
            CooledDown(log + [a], c) <==> u == 0 || a.at - u >= if a.isUp then c.up else c.down
  {
    hide Latest;
    LatestBounds(log, clock, true);
    LatestBounds(log, clock, false);
    var all := log + [a];
    var u := if a.isUp then Latest(log, true) else Max(Latest(log, true), Latest(log, false));
    if u != 0 {
      var i :| 0 <= i < |log| && log[i].at == u && (a.isUp ==> log[i].isUp);
      assert all[i] == log[i] && all[|log|] == a;
      assert CooledDown(all, c) ==> Apart(all[i], all[|log|], c);
    }
  }

  // After a late write the autoscaler can scale up too early exactly when the write moved the up-stamp back, the
  // cooldown of the scale-up it forgot is still running, and the written record has room to grow.
  lemma EarlyUpIff(t: Track, snapshot: Deployment, req: Request, c: Cooldowns)
    requires Pending(t, snapshot, req, c)
    ensures var t' := Saved(t, snapshot, req);
            (exists now, pods :: TooEarly(t', now, pods, true, c)) <==>
              && t'.dep.lastScaleUpAt < t.dep.lastScaleUpAt && t.clock < t.dep.lastScaleUpAt + c.up
              && t'.dep.desired < t'.dep.maxReplicas
  {
    hide Latest, Observed;
    var t', u := Saved(t, snapshot, req), t.dep.lastScaleUpAt;
    WriteMovesBack(t, snapshot, req, c);
    forall now, pods | TooEarly(t', now, pods, true, c)
      ensures t'.dep.lastScaleUpAt < u && t.clock < u + c.up && t'.dep.desired < t'.dep.maxReplicas
    {
      BreaksIff(t.log, t.clock, Action(true, now), c);
    }
    if t'.dep.lastScaleUpAt < u && t.clock < u + c.up && t'.dep.desired < t'.dep.maxReplicas {
      LatestBounds(t.log, t.clock, true);
      var now := Max(t.clock, t'.dep.lastScaleUpAt + c.up);
      TickUp(t', now, c);
      BreaksIff(t.log, t.clock, Action(true, now), c);
      assert TooEarly(t', now, [[Some(t'.dep.target + 1)]], true, c);
    }
  }

  // The same for scale-downs, which wait for the latest change of either kind.
  lemma EarlyDownIff(t: Track, snapshot: Deployment, req: Request, c: Cooldowns)
    requires Pending(t, snapshot, req, c)
    ensures var t' := Saved(t, snapshot, req);
            (exists now, pods :: TooEarly(t', now, pods, false, c)) <==>
              && LastChange(t'.dep) < LastChange(t.dep) && t.clock < LastChange(t.dep) + c.down
              && t'.dep.desired > t'.dep.minReplicas
  {
    hide Latest, Observed;
    var t', u := Saved(t, snapshot, req), LastChange(t.dep);
    WriteMovesBack(t, snapshot, req, c);
    forall now, pods | TooEarly(t', now, pods, false, c)
      ensures LastChange(t'.dep) < u && t.clock < u + c.down && t'.dep.desired > t'.dep.minReplicas
    {
      BreaksIff(t.log, t.clock, Action(false, now), c);
    }
    if LastChange(t'.dep) < u && t.clock < u + c.down && t'.dep.desired > t'.dep.minReplicas {
      LatestBounds(t.log, t.clock, true);
      LatestBounds(t.log, t.clock, false);
      var now := Max(t.clock, LastChange(t'.dep) + c.down);
      TickDown(t', now, c);
      BreaksIff(t.log, t.clock, Action(false, now), c);
      assert TooEarly(t', now, [[Some(0)]], false, c);
    }
  }

  // ----- every run after the write -----

  // Whatever the stamps forgot has run out anyway.
  ghost predicate Harmless(t: Track, c: Cooldowns) {
    && CooledDown(t.log, c) && InBounds(t.dep) && (forall i :: 0 <= i < |t.log| ==> t.log[i].at <= t.clock)
    && (forall i :: 0 <= i < |t.log| && t.log[i].isUp ==>
          t.log[i].at <= t.dep.lastScaleUpAt || t.clock - t.log[i].at >= c.up)
    && (forall i :: 0 <= i < |t.log| ==> t.log[i].at <= LastChange(t.dep) || t.clock - t.log[i].at >= c.down)
  }

  lemma HarmlessStep(t: Track, e: Event, c: Cooldowns)
    requires Harmless(t, c) && Possible(t, e)
    ensures Harmless(Next(t, e, c), c)
  {
    hide Decide, Observed;
    if e.Tick? {
      hide Next;
      TickMoves(t, e.now, e.pods, c);
    }
  }

  lemma {:induction false} HarmlessRuns(t: Track, events: seq<Event>, c: Cooldowns)
    requires Harmless(t, c) && IsRun(t, events, c)
    ensures CooledDown(After(t, events, c).log, c)
    decreases |events|
  {
    hide Next, Possible;
    if events != [] {
      HarmlessStep(t, events[0], c);
      HarmlessRuns(Next(t, events[0], c), events[1..], c);
    }
  }

  // Any count between the bounds can be set first, so a tick too early is always within reach.
  lemma ReachEarly(t: Track, isUp: bool, now: int, c: Cooldowns) returns (events: seq<Event>)
    requires now >= t.clock && now >= 1
    requires now - (if isUp then t.dep.lastScaleUpAt else LastChange(t.dep)) >= if isUp then c.up else c.down
    ensures IsRun(t, events, c) && After(t, events, c).log == t.log + [Action(isUp, now)]
  {
    hide Observed, Decide;
    var req := Request(1, 2, 50, UNIT, 80);
    var pods: seq<Samples> := if isUp then [[Some(51)]] else [[Some(0)]];
    events := [Edit(req), Manual(if isUp then 1 else 2), Tick(now, pods)];
    var t1 := Next(t, events[0], c);
    var t2 := Next(t1, events[1], c);
    var t3 := Next(t2, events[2], c);
    if isUp { TickUp(t2, now, c); } else { TickDown(t2, now, c); }
    assert events[1..] == [events[1], events[2]] && events[1..][1..] == [events[2]] && events[1..][1..][1..] == [];
    assert IsRun(t3, [], c) && IsRun(t2, [events[2]], c) && IsRun(t1, events[1..], c);
    assert After(t1, events[1..], c) == After(t2, [events[2]], c) == After(t3, [], c) == t3;
  }

  // A late write is safe for everything that may follow exactly when each stamp it moves back was about to expire:
  // the cooldown it belongs to is over.
  lemma LateWriteSafeIff(t: Track, snapshot: Deployment, req: Request, c: Cooldowns)
    requires Pending(t, snapshot, req, c)
    ensures var t' := Saved(t, snapshot, req);
            (forall events :: IsRun(t', events, c) ==> CooledDown(After(t', events, c).log, c)) <==>
              && (t'.dep.lastScaleUpAt == t.dep.lastScaleUpAt || t.clock >= t.dep.lastScaleUpAt + c.up)
              && (LastChange(t'.dep) == LastChange(t.dep) || t.clock >= LastChange(t.dep) + c.down)
  {
    hide Latest;
    var t' := Saved(t, snapshot, req);
    var upSafe := t'.dep.lastScaleUpAt == t.dep.lastScaleUpAt || t.clock >= t.dep.lastScaleUpAt + c.up;
    var downSafe := LastChange(t'.dep) == LastChange(t.dep) || t.clock >= LastChange(t.dep) + c.down;
    WriteMovesBack(t, snapshot, req, c);
    LatestBounds(t.log, t.clock, true);
    LatestBounds(t.log, t.clock, false);
    if upSafe && downSafe {
      assert Harmless(t', c);
      forall events | IsRun(t', events, c)
        ensures CooledDown(After(t', events, c).log, c)
      {
        HarmlessRuns(t', events, c);
      }
    } else {
      UnsafeWrite(t, t', !upSafe, c);
    }
  }

  // The stamp a change of this kind waits for.
  function Awaited(dep: Deployment, isUp: bool): int { if isUp then dep.lastScaleUpAt else LastChange(dep) }

  function Cooldown(c: Cooldowns, isUp: bool): int { if isUp then c.up else c.down }

  lemma UnsafeWrite(t: Track, t': Track, isUp: bool, c: Cooldowns)
    requires Inv(t, c) && t' == t.(dep := t'.dep)
    requires 0 <= Awaited(t'.dep, isUp) < Awaited(t.dep, isUp) && t.clock < Awaited(t.dep, isUp) + Cooldown(c, isUp)
    ensures exists events :: IsRun(t', events, c) && !CooledDown(After(t', events, c).log, c)
  {
    var now := Max(Max(t.clock, 1), Awaited(t'.dep, isUp) + Cooldown(c, isUp));
    LatestBounds(t.log, t.clock, true);
    LatestBounds(t.log, t.clock, false);
    BreaksIff(t.log, t.clock, Action(isUp, now), c);
    assert !CooledDown(t.log + [Action(isUp, now)], c);
    hide Inv, CooledDown, IsRun, After;
    var events := ReachEarly(t', isUp, now, c);
  }

  // For instance: a scale-up between the read and the write of an edit to a deployment that had scaled up before, then
  // another one a second later, under a cooldown of 30 seconds.
  lemma StaleEditBreaksCooldown(req: Request, dep: Deployment, hot: seq<Samples>)
    requires req == Request(1, 10, 50, UNIT, 80) && Observed(hot) == Some(100)
    requires dep == Created(dep.name, req)
    ensures var c := Cooldowns(30, 180);
            var read := Next(Next(Track(dep, [], 0, {}), Tick(100, hot), c), Read, c);
            var scaled := Next(read, Tick(130, hot), c);
            var again := Next(Saved(scaled, read.dep, req), Tick(131, hot), c);
            && read.dep in scaled.readings && !CooledDown(again.log, c)
            && again.log == [Action(true, 100), Action(true, 130), Action(true, 131)]
  {
    hide Observed;
    var c := Cooldowns(30, 180);
    assert Wanted(dep, 100) == 2 && Wanted(dep.(desired := 2), 100) == 4;
    var read := Next(Next(Track(dep, [], 0, {}), Tick(100, hot), c), Read, c);
    var scaled := Next(read, Tick(130, hot), c);
    var again := Next(Saved(scaled, read.dep, req), Tick(131, hot), c);
    assert again.log[1] == Action(true, 130) && again.log[2] == Action(true, 131);
    assert !Apart(again.log[1], again.log[2], c);
  }
}
