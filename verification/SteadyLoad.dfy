/** The autoscaler under a constant total load: which counts it keeps, and which it alternates between for ever. */
module SteadyLoad {
  import opened Collections
  import opened Schema
  import opened Autoscale
  import opened Scaling
  import opened StaleEdits

  // A run of ticks, each observing the load shared out over the replicas there are, rounded down.
  ghost predicate UnderLoad(t: Track, events: seq<Event>, load: nat, c: Cooldowns)
    decreases |events|
  {
    events == [] ||
    (&& events[0].Tick? && Possible(t, events[0]) && t.dep.desired >= 1
     && Observed(events[0].pods) == Some(load / t.dep.desired)
     && UnderLoad(Next(t, events[0], c), events[1..], load, c))
  }

  // Rounding loses the remainder of the load.
  lemma Carried(load: nat, d: int)
    requires d >= 1
    ensures d * (load / d) == load - load % d
  {
  }

  // The count a tick asks for, in terms of the load.
  lemma WantedUnderLoad(dep: Deployment, load: nat, r: int)
    requires InBounds(dep) && dep.minReplicas <= r <= dep.maxReplicas
    ensures Wanted(dep, load / dep.desired) == r <==>
              && (load - load % dep.desired <= r * dep.target || r == dep.maxReplicas)
              && ((r - 1) * dep.target < load - load % dep.desired || r == dep.minReplicas)
  {
    Carried(load, dep.desired);
    WantedIff(dep, load / dep.desired, r);
    hide Wanted;
  }

  lemma {:induction false} StaysPut(t: Track, events: seq<Event>, load: nat, c: Cooldowns)
    requires InBounds(t.dep) && Wanted(t.dep, load / t.dep.desired) == t.dep.desired && UnderLoad(t, events, load, c)
    ensures After(t, events, c).dep == t.dep
    decreases |events|
  {
    hide Wanted, Observed;
    if events != [] {
      StaysPut(Next(t, events[0], c), events[1..], load, c);
    }
  }

  // Late enough for every cooldown.
  function PastCooldowns(t: Track, c: Cooldowns): int { Max(Max(t.clock, 1), LastChange(t.dep) + Max(c.up, c.down)) }

  function LoadTick(t: Track, load: nat, now: int): Event
    requires t.dep.desired >= 1
  {
    Tick(now, [[Some(load / t.dep.desired)]])
  }

  // With the cooldowns over, one tick moves the count to the one wanted.
  lemma TickReaches(t: Track, e: Event, load: nat, c: Cooldowns)
    requires InBounds(t.dep) && UnderLoad(t, [e], load, c) && e.now - LastChange(t.dep) >= Max(c.up, c.down)
    ensures var t' := Next(t, e, c);
            && t'.dep.desired == Wanted(t.dep, load / t.dep.desired) && t'.clock == e.now
            && t'.dep == t.dep.(desired := t'.dep.desired, lastScaleUpAt := t'.dep.lastScaleUpAt,
                                lastScaleDownAt := t'.dep.lastScaleDownAt)
            && (t'.dep.desired != t.dep.desired && LastChange(t.dep) <= e.now ==> LastChange(t'.dep) == e.now)
  {
    hide Wanted, Observed;
  }

  // A count is kept over every run of ticks under the load exactly when it carries the load and one replica fewer
  // would not; at a bound, only the half that points inside is needed.
  lemma KeptIff(t: Track, load: nat, c: Cooldowns)
    requires InBounds(t.dep)
    ensures var d, carried := t.dep.desired, load - load % t.dep.desired;
            (forall events :: UnderLoad(t, events, load, c) ==> After(t, events, c).dep.desired == d) <==>
              && (carried <= d * t.dep.target || d == t.dep.maxReplicas)
              && ((d - 1) * t.dep.target < carried || d == t.dep.minReplicas)
  {
    hide Wanted, Observed;
    var d := t.dep.desired;
    WantedUnderLoad(t.dep, load, d);
    if Wanted(t.dep, load / d) == d {
      forall events | UnderLoad(t, events, load, c)
        ensures After(t, events, c).dep.desired == d
      {
        StaysPut(t, events, load, c);
      }
    } else {
      var e := LoadTick(t, load, PastCooldowns(t, c));
      OneSample(load / d);
      assert UnderLoad(t, [e], load, c);
      TickReaches(t, e, load, c);
      OneStep(t, e, c);
    }
  }

  lemma OneStep(t: Track, e: Event, c: Cooldowns)
    ensures After(t, [e], c) == Next(t, e, c)
  {
    assert [e][1..] == [];
    assert After(Next(t, e, c), [], c) == Next(t, e, c);
  }

  // Every tick comes when both cooldowns are over.
  ghost predicate Paced(events: seq<Event>, since: int, c: Cooldowns)
    decreases |events|
  {
    events != [] ==>
      events[0].Tick? && events[0].now - since >= Max(c.up, c.down) && Paced(events[1..], events[0].now, c)
  }

  // d replicas ask for d + 1 under the load, and d + 1 ask for d.
  predicate SeeSaw(dep: Deployment, load: nat, d: int)
    requires d >= 1
  {
    && d * dep.target < load - load % d && (load - load % d <= (d + 1) * dep.target || d + 1 == dep.maxReplicas)
    && load - load % (d + 1) <= d * dep.target
    && ((d - 1) * dep.target < load - load % (d + 1) || d == dep.minReplicas)
  }

  lemma SeeSawWants(dep: Deployment, load: nat, d: int)
    requires InBounds(dep) && dep.minReplicas <= d < dep.maxReplicas
    ensures SeeSaw(dep, load, d) <==>
              Wanted(dep.(desired := d), load / d) == d + 1 && Wanted(dep.(desired := d + 1), load / (d + 1)) == d
  {
    hide Wanted;
    WantedUnderLoad(dep.(desired := d), load, d + 1);
    WantedUnderLoad(dep.(desired := d + 1), load, d);
  }

  lemma SameWants(dep: Deployment, other: Deployment, load: nat, d: int)
    requires d >= 1 && dep.target > 0
    requires other.target == dep.target && other.minReplicas == dep.minReplicas && other.maxReplicas == dep.maxReplicas
    ensures SeeSaw(other, load, d) == SeeSaw(dep, load, d)
  {
  }

  // Once between such a pair, the count alternates at every tick the cooldowns let through, for as long as it runs.
  lemma {:induction false} Alternates(t: Track, events: seq<Event>, load: nat, c: Cooldowns, d: int)
    requires InBounds(t.dep) && t.dep.minReplicas <= d < t.dep.maxReplicas && d <= t.dep.desired <= d + 1
    requires SeeSaw(t.dep, load, d) && LastChange(t.dep) <= t.clock
    requires UnderLoad(t, events, load, c) && Paced(events, LastChange(t.dep), c)
    ensures After(t, events, c).dep.desired == d + (t.dep.desired - d + |events|) % 2
    decreases |events|
  {
    hide Wanted, Observed, SeeSaw, Next;
    if events != [] {
      var e, t' := events[0], Next(t, events[0], c);
      SeeSawWants(t.dep, load, d);
      assert t.dep.(desired := t.dep.desired) == t.dep;
      FirstAlone(t, events, load, c);
      TickReaches(t, e, load, c);
      SameWants(t.dep, t'.dep, load, d);
      Alternates(t', events[1..], load, c, d);
      OtherParity(t.dep.desired - d, |events|);
    }
  }

  lemma OtherParity(x: int, n: int)
    requires 0 <= x <= 1
    ensures (1 - x + (n - 1)) % 2 == (x + n) % 2
  {
  }

  lemma FirstAlone(t: Track, events: seq<Event>, load: nat, c: Cooldowns)
    requires events != [] && UnderLoad(t, events, load, c)
    ensures UnderLoad(t, [events[0]], load, c)
  {
    hide Next, Observed;
    assert [events[0]][1..] == [];
    assert UnderLoad(Next(t, events[0], c), [], load, c);
  }

  // And only then: the alternation from d is exactly that condition on the load, the target and the bounds.
  lemma AlternatesIff(t: Track, load: nat, c: Cooldowns)
    requires InBounds(t.dep) && t.dep.desired < t.dep.maxReplicas && LastChange(t.dep) <= t.clock
    requires c.up >= 0 && c.down >= 0
    ensures var d := t.dep.desired;
            (forall events :: UnderLoad(t, events, load, c) && Paced(events, LastChange(t.dep), c) ==>
               After(t, events, c).dep.desired == d + |events| % 2) <==> SeeSaw(t.dep, load, d)
  {
    hide Wanted, Observed, SeeSaw;
    var d := t.dep.desired;
    if SeeSaw(t.dep, load, d) {
      forall events | UnderLoad(t, events, load, c) && Paced(events, LastChange(t.dep), c)
        ensures After(t, events, c).dep.desired == d + |events| % 2
      {
        Alternates(t, events, load, c, d);
      }
    } else if forall events :: UnderLoad(t, events, load, c) && Paced(events, LastChange(t.dep), c) ==>
                After(t, events, c).dep.desired == d + |events| % 2 {
      TwoTicks(t, load, c);
    }
  }

  lemma TwoTicks(t: Track, load: nat, c: Cooldowns)
    requires InBounds(t.dep) && t.dep.desired < t.dep.maxReplicas && LastChange(t.dep) <= t.clock
    requires forall events :: UnderLoad(t, events, load, c) && Paced(events, LastChange(t.dep), c) ==>
               After(t, events, c).dep.desired == t.dep.desired + |events| % 2
    ensures SeeSaw(t.dep, load, t.dep.desired)
  {
    hide Wanted, Observed, SeeSaw;
    var d := t.dep.desired;
    var e := LoadTick(t, load, PastCooldowns(t, c));
    var t1 := Next(t, e, c);
    OneSample(load / d);
    assert UnderLoad(t, [e], load, c) && Paced([e], LastChange(t.dep), c);
    TickReaches(t, e, load, c);
    OneStep(t, e, c);
    assert t1.dep.desired == d + 1;
    var f := LoadTick(t1, load, PastCooldowns(t1, c));
    var t2 := Next(t1, f, c);
    OneSample(load / (d + 1));
    assert [e, f][1..] == [f];
    assert UnderLoad(t1, [f], load, c) && Paced([f], e.now, c);
    assert UnderLoad(t, [e, f], load, c) && Paced([e, f], LastChange(t.dep), c);
    TickReaches(t1, f, load, c);
    OneStep(t1, f, c);
    assert After(t, [e, f], c) == t2;
    SeeSawWants(t.dep, load, d);
    SameWanted(t.dep.(desired := d + 1), t1.dep, load / (d + 1));
  }

  lemma SameWanted(dep: Deployment, other: Deployment, observed: int)
    requires dep.target > 0 && other.target == dep.target && other.desired == dep.desired
    requires other.minReplicas == dep.minReplicas && other.maxReplicas == dep.maxReplicas
    ensures Wanted(other, observed) == Wanted(dep, observed)
  {
  }

  // Convergence is not promised: at a constant load of 104 with target 51, n ticks past the cooldowns leave two
  // replicas or three by the parity of n.
  lemma LoadOf104Alternates(t: Track, events: seq<Event>, c: Cooldowns)
    requires InBounds(t.dep) && t.dep.target == 51 && t.dep.minReplicas <= 2 < t.dep.maxReplicas && t.dep.desired == 2
    requires LastChange(t.dep) <= t.clock && UnderLoad(t, events, 104, c) && Paced(events, LastChange(t.dep), c)
    ensures After(t, events, c).dep.desired == 2 + |events| % 2
  {
    hide UnderLoad, Paced, After;
    assert 104 % 2 == 0 && 104 % 3 == 2 && SeeSaw(t.dep, 104, 2);
    hide SeeSaw;
    Alternates(t, events, 104, c, 2);
  }
}
