/** Replica counts over time: the autoscale script, spec edits and manual scaling on the same deployment record
    (internal/controller/autoscale.go, internal/api/store.go). */
module Scaling {
  import opened Arithmetic
  import opened Collections
  import opened Schema
  import opened Autoscale

  // ----- the ratio -----

  function CeilDiv(a: int, b: int): int
    requires b > 0
  {
    (a + b - 1) / b
  }

  function Clamp(v: int, min: int, max: int): int { if v < min then min else if v > max then max else v }

  // Replicas needed to bring the observed utilisation down to the target.
  function Unclamped(dep: Deployment, observed: int): int
    requires dep.target > 0
  {
    CeilDiv(dep.desired * observed, dep.target)
  }

  function Wanted(dep: Deployment, observed: int): int
    requires dep.target > 0
  {
    var atLeast := if Unclamped(dep, observed) < dep.minReplicas then dep.minReplicas else Unclamped(dep, observed);
    if atLeast > dep.maxReplicas then dep.maxReplicas else atLeast
  }

  lemma CeilDivBounds(a: int, b: int)
    requires b > 0
    ensures (CeilDiv(a, b) - 1) * b < a <= CeilDiv(a, b) * b
  {
    QuotientBounds(a + b - 1, b);
    var q := (a + b - 1) / b;
    assert (q - 1) * b == q * b - b && (q + 1) * b == q * b + b;
  }

  lemma LeastMultiple(a: int, b: int, q: int, r: int)
    requires b > 0 && (q - 1) * b < a && r * b >= a
    ensures q <= r
  {
    MulCancel(b, q - 1, r);
  }

  lemma CeilDivLeast(a: int, b: int)
    requires b > 0
    ensures forall r: int :: r * b >= a ==> CeilDiv(a, b) <= r
  {
    CeilDivBounds(a, b);
    hide CeilDiv;
    forall r: int | r * b >= a
      ensures CeilDiv(a, b) <= r
    {
      LeastMultiple(a, b, CeilDiv(a, b), r);
    }
  }

  lemma CeilDivExceeds(desired: int, observed: int, target: int)
    requires target > 0 && desired >= 1
    ensures CeilDiv(desired * observed, target) > desired <==> observed > target
  {
    var a, q := desired * observed, CeilDiv(desired * observed, target);
    CeilDivBounds(a, target);
    hide CeilDiv;
    if observed <= target {
      MulMonotone(desired, observed, target);
      LeastMultiple(a, target, q, desired);
    } else {
      MulMonotone(desired, target + 1, observed);
      assert desired * (target + 1) == desired * target + desired;
      LeastMultiple(desired * target + 1, target, desired + 1, q);
    }
  }

  // The unclamped target is the least replica count that carries the load at the target utilisation, and it asks for
  // more replicas exactly when utilisation is above the target.
  lemma UnclampedIsLeast(dep: Deployment, observed: int)
    requires dep.target > 0 && dep.desired >= 1
    ensures Unclamped(dep, observed) * dep.target >= dep.desired * observed
    ensures forall r: int :: r * dep.target >= dep.desired * observed ==> Unclamped(dep, observed) <= r
    ensures Unclamped(dep, observed) > dep.desired <==> observed > dep.target
  {
    hide CeilDiv;
    CeilDivBounds(dep.desired * observed, dep.target);
    CeilDivLeast(dep.desired * observed, dep.target);
    CeilDivExceeds(dep.desired, observed, dep.target);
  }

  // Which count inside its bounds the record moves to: the one that carries the load while one replica fewer would
  // not, except that a bound needs only the half that points inside.
  lemma WantedIff(dep: Deployment, observed: int, r: int)
    requires dep.target > 0 && dep.minReplicas <= r <= dep.maxReplicas
    ensures Wanted(dep, observed) == r <==>
              && (dep.desired * observed <= r * dep.target || r == dep.maxReplicas)
              && ((r - 1) * dep.target < dep.desired * observed || r == dep.minReplicas)
  {
    CeilDivBounds(dep.desired * observed, dep.target);
    CeilDivCompares(dep.desired * observed, dep.target, r);
    hide CeilDiv;
  }

  lemma CeilDivCompares(a: int, b: int, r: int)
    requires b > 0
    ensures CeilDiv(a, b) <= r <==> a <= r * b
    ensures CeilDiv(a, b) >= r <==> (r - 1) * b < a
  {
    CeilDivBounds(a, b);
    CeilDivLeast(a, b);
    hide CeilDiv;
    var q := CeilDiv(a, b);
    if q <= r { MulMonotone(b, q, r); }
    if q >= r { MulMonotone(b, r - 1, q - 1); }
    if (r - 1) * b < a { LeastMultiple(a, b, r, q); }
  }

  // ----- the record -----

  datatype Outcome = NoTarget | NoTelemetry | Steady | UpCooldown | DownCooldown | ScaledUp | ScaledDown

  function Decide(dep: Deployment, observed: Option<int>, now: int, up: int, down: int): (Deployment, Outcome) {
    if dep.target <= 0 then (dep, NoTarget)
    else if observed.None? then (dep, NoTelemetry)
    else
      var wanted := Wanted(dep, observed.value);
      if wanted == dep.desired then (dep, Steady)
      else if wanted > dep.desired then
        if now - dep.lastScaleUpAt < up then (dep, UpCooldown)
        else (dep.(desired := wanted, lastScaleUpAt := now), ScaledUp)
      else if now - Max(dep.lastScaleUpAt, dep.lastScaleDownAt) < down then (dep, DownCooldown)
      else (dep.(desired := wanted, lastScaleDownAt := now), ScaledDown)
  }

  datatype Request = Request(minReplicas: int, maxReplicas: int, target: int, request: Vec, port: int) {
    predicate Valid() { 1 <= minReplicas <= maxReplicas <= 100 && 1 <= target <= 100 && UNIT.Leq(request) }
  }

  function Created(name: string, req: Request): Deployment {
    Deployment(name, req.minReplicas, req.maxReplicas, req.minReplicas, req.target, req.request, req.port, 0, 0)
  }

  // An edit keeps the count the deployment had scaled to, inside the new bounds, and keeps both cooldown stamps.
  function Edited(existing: Deployment, req: Request): Deployment {
    Deployment(existing.name, req.minReplicas, req.maxReplicas,
               Clamp(existing.desired, req.minReplicas, req.maxReplicas), req.target, req.request, req.port,
               existing.lastScaleUpAt, existing.lastScaleDownAt)
  }

  // A stamp that was never set (read as 0) is left out of the write, so the stored one stays.
  function Kept(read: int, stored: int): int { if read == 0 then stored else read }

  // An edit computed from `snapshot` and written over `stored`, which may have moved on meanwhile.
  function Written(stored: Deployment, snapshot: Deployment, req: Request): Deployment {
    Edited(snapshot, req).(name := stored.name, lastScaleUpAt := Kept(snapshot.lastScaleUpAt, stored.lastScaleUpAt),
                           lastScaleDownAt := Kept(snapshot.lastScaleDownAt, stored.lastScaleDownAt))
  }

  function Distance(a: int, b: int): nat { if a <= b then b - a else a - b }

  // An edit moves the count no further than the new bounds make it: to the nearest allowed one, so not at all if it was
  // allowed already. It touches neither stamp nor name.
  lemma EditMovesLeast(existing: Deployment, req: Request, r: int)
    requires req.minReplicas <= r <= req.maxReplicas
    ensures var e := Edited(existing, req);
            && req.minReplicas <= e.desired <= req.maxReplicas
            && Distance(e.desired, existing.desired) <= Distance(r, existing.desired)
            && (req.minReplicas <= existing.desired <= req.maxReplicas ==> e.desired == existing.desired)
            && e.lastScaleUpAt == existing.lastScaleUpAt && e.lastScaleDownAt == existing.lastScaleDownAt
            && e.name == existing.name && e.minReplicas == req.minReplicas && e.maxReplicas == req.maxReplicas
            && e.target == req.target && e.request == req.request && e.port == req.port
  {
  }

  // A manual scale moves the count to the allowed one nearest to what was asked.
  lemma ManualMovesNearest(dep: Deployment, asked: int, r: int)
    requires dep.minReplicas <= r <= dep.maxReplicas
    ensures var d := Clamp(asked, dep.minReplicas, dep.maxReplicas);
            dep.minReplicas <= d <= dep.maxReplicas && Distance(d, asked) <= Distance(r, asked)
  {
  }

  class DeploymentStore {
    var deployments: map<string, Deployment>

    constructor ()
      ensures deployments == map[]
    {
      deployments := map[];
    }

    // The second half of Apply: the request, completed from the record read earlier, written field by field.
    method WriteBack(name: string, existing: Option<Deployment>, req: Request)
      modifies this
      ensures var was := old(deployments);
              deployments == was[name :=
                match existing
                case None =>
                  if name in was then
                    Created(name, req).(lastScaleUpAt := was[name].lastScaleUpAt,
                                        lastScaleDownAt := was[name].lastScaleDownAt)
                  else Created(name, req)
                case Some(snapshot) =>
                  (if name in was then Written(was[name], snapshot, req) else Edited(snapshot, req)).(name := name)]
    {
      var dep := Deployment(name, req.minReplicas, req.maxReplicas, req.minReplicas, req.target, req.request, req.port,
                            0, 0);
      if existing.Some? {
        dep := dep.(lastScaleUpAt := existing.value.lastScaleUpAt, lastScaleDownAt := existing.value.lastScaleDownAt,
                    desired := Clamp(existing.value.desired, dep.minReplicas, dep.maxReplicas));
      }
      if dep.lastScaleUpAt == 0 && name in deployments {
        dep := dep.(lastScaleUpAt := deployments[name].lastScaleUpAt);
      }
      if dep.lastScaleDownAt == 0 && name in deployments {
        dep := dep.(lastScaleDownAt := deployments[name].lastScaleDownAt);
      }
      deployments := deployments[name := dep];
    }

    method Apply(name: string, req: Request) returns (existed: bool)
      modifies this
      ensures existed == (name in old(deployments))
      ensures deployments == old(deployments)[name := if existed then Edited(old(deployments)[name], req).(name := name)
                                                      else Created(name, req)]
    {
      existed := name in deployments;
      WriteBack(name, if existed then Some(deployments[name]) else None, req);
    }

    method SetDesiredReplicas(name: string, desired: int) returns (found: bool)
      modifies this
      ensures found == (name in old(deployments))
      ensures deployments == if !found then old(deployments)
                             else
                               var dep := old(deployments)[name];
                               old(deployments)[name := dep.(desired := Clamp(desired, dep.minReplicas, dep.maxReplicas))]
    {
      found := name in deployments;
      if found {
        var dep := deployments[name];
        deployments := deployments[name := dep.(desired := Clamp(desired, dep.minReplicas, dep.maxReplicas))];
      }
    }

    method Evaluate(name: string, pods: seq<Samples>, now: int, up: int, down: int) returns (outcome: Option<Outcome>)
      modifies this
      ensures name !in old(deployments) ==> outcome == None && deployments == old(deployments)
      ensures name in old(deployments) ==>
                var r := Decide(old(deployments)[name], Observed(pods), now, up, down);
                outcome == Some(r.1) && deployments == old(deployments)[name := r.0]
    {
      if name !in deployments {
        return None;
      }
      var dep := deployments[name];
      if dep.target <= 0 {
        return Some(NoTarget);
      }
      var observed := ObserveScript(pods);
      if observed.None? {
        return Some(NoTelemetry);
      }
      var wanted := Wanted(dep, observed.value);
      if wanted == dep.desired {
        return Some(Steady);
      }
      if wanted > dep.desired {
        if now - dep.lastScaleUpAt < up {
          return Some(UpCooldown);
        }
        deployments := deployments[name := dep.(desired := wanted, lastScaleUpAt := now)];
        return Some(ScaledUp);
      }
      var lastChange := dep.lastScaleUpAt;
      if dep.lastScaleDownAt > lastChange {
        lastChange := dep.lastScaleDownAt;
      }
      if now - lastChange < down {
        return Some(DownCooldown);
      }
      deployments := deployments[name := dep.(desired := wanted, lastScaleDownAt := now)];
      return Some(ScaledDown);
    }
  }

  // ----- runs -----

  datatype Action = Action(isUp: bool, at: int)

  /** A deployment's record, every change the autoscaler made to it, the latest time seen, and every reading of the
      record an edit may still be holding. */
  datatype Track = Track(dep: Deployment, log: seq<Action>, clock: int, readings: set<Deployment>)

  datatype Event =
    | Tick(now: int, pods: seq<Samples>)
    | Edit(req: Request)
    | Read
    | Save(snapshot: Deployment, req: Request)     // the write of an edit whose read lies further back
    | Manual(desired: int)

  datatype Cooldowns = Cooldowns(up: int, down: int)

  ghost predicate Possible(t: Track, e: Event) {
    match e
    case Tick(now, _) => now >= t.clock && now >= 1
    case Edit(req) => req.Valid()
    case Read => true
    case Save(snapshot, req) => snapshot in t.readings && req.Valid() && Unmoved(t.dep, snapshot)
    case Manual(_) => true
  }

  function Next(t: Track, e: Event, c: Cooldowns): Track {
    match e
    case Tick(now, pods) =>
      var (dep, outcome) := Decide(t.dep, Observed(pods), now, c.up, c.down);
      Track(dep,
            if outcome == ScaledUp then t.log + [Action(true, now)]
            else if outcome == ScaledDown then t.log + [Action(false, now)]
            else t.log,
            now, t.readings)
    case Edit(req) => t.(dep := Edited(t.dep, req))
    case Read => t.(readings := t.readings + {t.dep})
    case Save(snapshot, req) => t.(dep := Written(t.dep, snapshot, req))
    case Manual(desired) => t.(dep := t.dep.(desired := Clamp(desired, t.dep.minReplicas, t.dep.maxReplicas)))
  }

  ghost predicate IsRun(t: Track, events: seq<Event>, c: Cooldowns)
    decreases |events|
  {
    events == [] || (Possible(t, events[0]) && IsRun(Next(t, events[0], c), events[1..], c))
  }

  function After(t: Track, events: seq<Event>, c: Cooldowns): Track
    decreases |events|
  {
    if events == [] then t else After(Next(t, events[0], c), events[1..], c)
  }

  // Between an earlier and a later change: two scale-ups are `up` apart, a scale-down is `down` after anything.
  predicate Apart(earlier: Action, later: Action, c: Cooldowns) {
    if later.isUp then earlier.isUp ==> later.at - earlier.at >= c.up else later.at - earlier.at >= c.down
  }

  ghost predicate CooledDown(log: seq<Action>, c: Cooldowns) {
    forall i, j :: 0 <= i < j < |log| ==> Apart(log[i], log[j], c)
  }

  // Compare and set: neither stamp that was set when read has moved since.
  predicate Unmoved(stored: Deployment, snapshot: Deployment) {
    && (snapshot.lastScaleUpAt == 0 || snapshot.lastScaleUpAt == stored.lastScaleUpAt)
    && (snapshot.lastScaleDownAt == 0 || snapshot.lastScaleDownAt == stored.lastScaleDownAt)
  }

  // When the latest change of a kind was made; 0 if there was none.
  function Latest(log: seq<Action>, isUp: bool): int {
    if log == [] then 0
    else if log[|log| - 1].isUp == isUp then log[|log| - 1].at
    else Latest(log[..|log| - 1], isUp)
  }

  // The stamps are the times of the latest changes.
  ghost predicate StampsTrue(dep: Deployment, log: seq<Action>) {
    dep.lastScaleUpAt == Latest(log, true) && dep.lastScaleDownAt == Latest(log, false)
  }

  ghost predicate InOrder(log: seq<Action>, clock: int) {
    && (forall i :: 0 <= i < |log| ==> 1 <= log[i].at <= clock)
    && (forall i, j :: 0 <= i < j < |log| ==> log[i].at <= log[j].at)
  }

  // A reading is never ahead of the record.
  ghost predicate ReadsBehind(t: Track) {
    forall r :: r in t.readings ==>
      0 <= r.lastScaleUpAt <= t.dep.lastScaleUpAt && 0 <= r.lastScaleDownAt <= t.dep.lastScaleDownAt
  }

  ghost predicate InBounds(dep: Deployment) { 1 <= dep.minReplicas <= dep.desired <= dep.maxReplicas && dep.target >= 1 }

  ghost predicate Inv(t: Track, c: Cooldowns) {
    && InBounds(t.dep) && CooledDown(t.log, c) && InOrder(t.log, t.clock) && StampsTrue(t.dep, t.log) && ReadsBehind(t)
  }

  lemma {:induction false} LatestBounds(log: seq<Action>, clock: int, isUp: bool)
    requires InOrder(log, clock)
    ensures forall i :: 0 <= i < |log| && log[i].isUp == isUp ==> 1 <= log[i].at <= Latest(log, isUp)
    ensures Latest(log, isUp) == 0 || exists i :: 0 <= i < |log| && log[i] == Action(isUp, Latest(log, isUp))
    ensures Latest(log, isUp) >= 0
    decreases |log|
  {
    if log != [] {
      var n := |log| - 1;
      LatestBounds(log[..n], clock, isUp);
      if log[n].isUp != isUp && Latest(log, isUp) != 0 {
        var i :| 0 <= i < n && log[..n][i] == Action(isUp, Latest(log, isUp));
        assert log[i] == log[..n][i];
      } else if log[n].isUp == isUp {
        assert log[n] == Action(isUp, log[n].at);
      }
      forall i | 0 <= i < |log| && log[i].isUp == isUp
        ensures 1 <= log[i].at <= Latest(log, isUp)
      {
        if i < n { assert log[..n][i] == log[i]; }
      }
    }
  }

  lemma LatestAppends(log: seq<Action>, a: Action, isUp: bool)
    ensures Latest(log + [a], isUp) == if a.isUp == isUp then a.at else Latest(log, isUp)
  {
    assert (log + [a])[..|log|] == log;
  }

  // The autoscaler's own change: late enough after what the stamps say, stamped, and within bounds.
  lemma TickMoves(t: Track, now: int, pods: seq<Samples>, c: Cooldowns)
    requires InBounds(t.dep)
    ensures var t' := Next(t, Tick(now, pods), c);
            && InBounds(t'.dep) && t'.clock == now && t'.readings == t.readings
            && (|| (t'.dep == t.dep && t'.log == t.log)
                || (&& t'.log == t.log + [Action(true, now)] && now - t.dep.lastScaleUpAt >= c.up
                    && t'.dep.lastScaleUpAt == now && t'.dep.lastScaleDownAt == t.dep.lastScaleDownAt)
                || (&& t'.log == t.log + [Action(false, now)]
                    && now - t.dep.lastScaleUpAt >= c.down && now - t.dep.lastScaleDownAt >= c.down
                    && t'.dep.lastScaleUpAt == t.dep.lastScaleUpAt && t'.dep.lastScaleDownAt == now))
  {
    hide Unclamped, Observed;
  }

  lemma ActionKeeps(t: Track, t': Track, a: Action, c: Cooldowns)
    requires Inv(t, c) && a.at >= t.clock && a.at >= 1 && InBounds(t'.dep)
    requires t'.log == t.log + [a] && t'.clock == a.at && t'.readings == t.readings
    requires t'.dep.lastScaleUpAt == (if a.isUp then a.at else t.dep.lastScaleUpAt)
    requires t'.dep.lastScaleDownAt == (if a.isUp then t.dep.lastScaleDownAt else a.at)
    requires a.isUp ==> a.at - t.dep.lastScaleUpAt >= c.up
    requires !a.isUp ==> a.at - t.dep.lastScaleUpAt >= c.down && a.at - t.dep.lastScaleDownAt >= c.down
    ensures Inv(t', c)
  {
    hide Latest;
    LatestBounds(t.log, t.clock, true);
    LatestBounds(t.log, t.clock, false);
    LatestAppends(t.log, a, true);
    LatestAppends(t.log, a, false);
  }

  lemma StepKeeps(t: Track, e: Event, c: Cooldowns)
    requires Inv(t, c) && Possible(t, e)
    ensures Inv(Next(t, e, c), c)
  {
    hide Decide, Observed, Latest;
    if e.Tick? {
      hide Next, CooledDown, StampsTrue;
      var t' := Next(t, e, c);
      TickMoves(t, e.now, e.pods, c);
      if t'.log != t.log {
        ActionKeeps(t, t', t'.log[|t.log|], c);
      }
    } else {
      LatestBounds(t.log, t.clock, true);
      LatestBounds(t.log, t.clock, false);
    }
  }

  // Over every run of autoscaler ticks, edits, edits whose stamps did not move between read and write, and manual
  // scales, on a clock that never goes back: the count stays inside its bounds and the cooldowns are kept between all
  // the autoscaler's changes.
  lemma {:induction false} CooldownSafety(t: Track, events: seq<Event>, c: Cooldowns)
    requires Inv(t, c) && IsRun(t, events, c)
    ensures Inv(After(t, events, c), c)
    decreases |events|
  {
    hide Inv, Next, Possible;
    if events != [] {
      StepKeeps(t, events[0], c);
      CooldownSafety(Next(t, events[0], c), events[1..], c);
    }
  }

  lemma CreatedStarts(name: string, req: Request, clock: int, c: Cooldowns)
    requires req.Valid()
    ensures Inv(Track(Created(name, req), [], clock, {}), c)
    ensures var dep := Created(name, req);
            && dep.name == name && dep.minReplicas == req.minReplicas && dep.maxReplicas == req.maxReplicas
            && dep.desired == req.minReplicas
            && dep.target == req.target && dep.request == req.request && dep.port == req.port
  {
  }

  // ----- how many changes fit in a window -----

  // Positions in the log, in order, all of one kind and inside one window of time.
  ghost predicate PicksInWindow(log: seq<Action>, picks: seq<nat>, isUp: bool, from_: int, length: int) {
    && (forall i :: 0 <= i < |picks| ==>
          picks[i] < |log| && log[picks[i]].isUp == isUp && from_ <= log[picks[i]].at <= from_ + length)
    && (forall i, j :: 0 <= i < j < |picks| ==> picks[i] < picks[j])
  }

  lemma {:induction false} PicksSpread(log: seq<Action>, picks: seq<nat>, isUp: bool, gap: int, c: Cooldowns)
    requires CooledDown(log, c) && gap == (if isUp then c.up else c.down) && picks != []
    requires forall i :: 0 <= i < |picks| ==> picks[i] < |log| && log[picks[i]].isUp == isUp
    requires forall i, j :: 0 <= i < j < |picks| ==> picks[i] < picks[j]
    ensures log[picks[|picks| - 1]].at - log[picks[0]].at >= (|picks| - 1) * gap
    decreases |picks|
  {
    var n := |picks| - 1;
    if n > 0 {
      PicksSpread(log, picks[..n], isUp, gap, c);
      assert Apart(log[picks[n - 1]], log[picks[n]], c);
      assert n * gap == (n - 1) * gap + gap;
    }
  }

  // A window of W seconds holds at most floor(W / U) + 1 scale-ups and floor(W / D) + 1 scale-downs.
  lemma ChangesPerWindow(log: seq<Action>, picks: seq<nat>, isUp: bool, from_: int, length: int, c: Cooldowns)
    requires CooledDown(log, c) && c.up >= 1 && c.down >= 1 && length >= 0
    requires PicksInWindow(log, picks, isUp, from_, length)
    ensures |picks| <= length / (if isUp then c.up else c.down) + 1
  {
    var gap := if isUp then c.up else c.down;
    QuotientBounds(length, gap);
    if picks != [] {
      PicksSpread(log, picks, isUp, gap, c);
      MulCancel(gap, |picks| - 1, length / gap + 1);
    }
  }

  // A manual scale clamps to the bounds it read. Whatever count is asked for, the stored bounds hold afterwards
  // exactly when the bounds read lie inside them.
  lemma StaleManualScaleIff(stored: Deployment, snapshot: Deployment)
    requires InBounds(stored) && InBounds(snapshot)
    ensures (forall desired ::
               InBounds(stored.(desired := Clamp(desired, snapshot.minReplicas, snapshot.maxReplicas)))) <==>
            (stored.minReplicas <= snapshot.minReplicas && snapshot.maxReplicas <= stored.maxReplicas)
  {
    var low, high := Clamp(snapshot.minReplicas, snapshot.minReplicas, snapshot.maxReplicas),
                     Clamp(snapshot.maxReplicas, snapshot.minReplicas, snapshot.maxReplicas);
    assert low == snapshot.minReplicas && high == snapshot.maxReplicas;
    if forall desired :: InBounds(stored.(desired := Clamp(desired, snapshot.minReplicas, snapshot.maxReplicas))) {
      assert InBounds(stored.(desired := low)) && InBounds(stored.(desired := high));
    }
  }
}
