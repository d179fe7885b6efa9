/** One deployment's telemetry averaged twice: by the autoscaler's script (internal/controller/autoscale.go) and by the
    dashboard (internal/api/dashboard.go). */
module Autoscale {
  import opened Arithmetic
  import opened Collections

  // ----- averages -----

  const WINDOW := 3

  /** One pod's telemetry list: readable samples, and entries that are not numbers. */
  type Samples = seq<Option<nat>>

  function Tail(s: Samples): Samples { if |s| <= WINDOW then s else s[|s| - WINDOW..] }

  function Total(s: Samples): nat {
    if s == [] then 0 else Total(s[..|s| - 1]) + (if s[|s| - 1].Some? then s[|s| - 1].value else 0)
  }

  function Readable(s: Samples): nat {
    if s == [] then 0 else Readable(s[..|s| - 1]) + (if s[|s| - 1].Some? then 1 else 0)
  }

  // The pods that take part: those with a readable sample in the window.
  function Voters(pods: seq<Samples>): nat {
    if pods == [] then 0 else Voters(pods[..|pods| - 1]) + (if Readable(Tail(pods[|pods| - 1])) > 0 then 1 else 0)
  }

  function Mean(s: Samples): real
    requires Readable(s) > 0
  {
    Total(s) as real / Readable(s) as real
  }

  // The autoscaler adds up exact means ...
  function MeanSum(pods: seq<Samples>): real {
    if pods == [] then 0.0
    else
      var last := Tail(pods[|pods| - 1]);
      MeanSum(pods[..|pods| - 1]) + (if Readable(last) > 0 then Mean(last) else 0.0)
  }

  // ... the dashboard adds up rounded ones.
  function FloorSum(pods: seq<Samples>): nat {
    if pods == [] then 0
    else
      var last := Tail(pods[|pods| - 1]);
      FloorSum(pods[..|pods| - 1]) + (if Readable(last) > 0 then Total(last) / Readable(last) else 0)
  }

  // Floor of the mean of means, or nothing when no pod has reported.
  function Observed(pods: seq<Samples>): Option<int> {
    if Voters(pods) == 0 then None else Some((MeanSum(pods) / Voters(pods) as real).Floor)
  }

  function Displayed(pods: seq<Samples>): int {
    if Voters(pods) == 0 then 0 else FloorSum(pods) / Voters(pods)
  }

  method SampleTotals(samples: Samples) returns (sum: nat, count: nat)
    ensures sum == Total(samples) && count == Readable(samples)
  {
    sum, count := 0, 0;
    for i := 0 to |samples|
      invariant sum == Total(samples[..i]) && count == Readable(samples[..i])
    {
      assert samples[..i + 1][..i] == samples[..i];
      if samples[i].Some? {
        sum, count := sum + samples[i].value, count + 1;
      }
    }
    assert samples[..|samples|] == samples;
  }

  method ObserveScript(pods: seq<Samples>) returns (observed: Option<int>)
    ensures observed == Observed(pods)
  {
    hide Tail;
    var sum: real, count := 0.0, 0;
    for i := 0 to |pods|
      invariant sum == MeanSum(pods[..i]) && count == Voters(pods[..i])
    {
      assert pods[..i + 1][..i] == pods[..i];
      var podSum, podCount := SampleTotals(Tail(pods[i]));
      if podCount > 0 {
        sum, count := sum + podSum as real / podCount as real, count + 1;
      }
    }
    assert pods[..|pods|] == pods;
    if count == 0 {
      return None;
    }
    observed := Some((sum / count as real).Floor);
  }

  method ObservedCPU(pods: seq<Samples>) returns (cpu: int)
    ensures cpu == Displayed(pods)
  {
    hide Tail;
    var total, voters := 0, 0;
    for i := 0 to |pods|
      invariant total == FloorSum(pods[..i]) && voters == Voters(pods[..i])
    {
      assert pods[..i + 1][..i] == pods[..i];
      var sum, count := SampleTotals(Tail(pods[i]));
      if count == 0 { continue; }
      total, voters := total + sum / count, voters + 1;
    }
    assert pods[..|pods|] == pods;
    cpu := if voters == 0 then 0 else total / voters;
  }

  // ----- which samples count -----

  lemma TotalAppends(s: Samples, x: Option<nat>)
    ensures Total(s + [x]) == Total(s) + if x.Some? then x.value else 0
    ensures Readable(s + [x]) == Readable(s) + if x.Some? then 1 else 0
  {
    assert (s + [x])[..|s|] == s;
  }

  lemma OneVoter(s: Samples, total: nat, count: nat)
    requires Total(Tail(s)) == total && Readable(Tail(s)) == count > 0
    ensures Observed([s]) == Some(total / count) && Displayed([s]) == total / count
  {
    hide Total, Readable, Tail;
    var pods: seq<Samples> := [s];
    assert pods[..|pods| - 1] == [];
    assert Voters(pods[..|pods| - 1]) == 0 && MeanSum(pods[..|pods| - 1]) == 0.0 && FloorSum(pods[..|pods| - 1]) == 0;
    assert pods[|pods| - 1] == s;
    assert MeanSum(pods) == Mean(Tail(s)) && Voters(pods) == 1 && FloorSum(pods) == total / count;
    FloorOfQuotient(total, count);
  }

  lemma ThreeTotals(a: nat, b: nat, c: nat)
    ensures Total([Some(a)]) == a && Readable([Some(a)]) == 1
    ensures Total([Some(a), Some(b)]) == a + b && Readable([Some(a), Some(b)]) == 2
    ensures Total([Some(a), Some(b), Some(c)]) == a + b + c && Readable([Some(a), Some(b), Some(c)]) == 3
  {
    var none: Samples, s1: Samples, s2: Samples, s3: Samples :=
      [], [Some(a)], [Some(a), Some(b)], [Some(a), Some(b), Some(c)];
    assert Total(none) == 0 && Readable(none) == 0;
    assert s1 == none + [Some(a)] && s2 == s1 + [Some(b)] && s3 == s2 + [Some(c)];
    hide Total, Readable;
    TotalAppends(none, Some(a));
    TotalAppends(s1, Some(b));
    TotalAppends(s2, Some(c));
  }

  // One pod: both averages are the mean of its last three samples, whatever came before, or of all it has if fewer.
  lemma LastThreeCount(older: Samples, a: nat, b: nat, c: nat)
    ensures Observed([older + [Some(a), Some(b), Some(c)]]) == Some((a + b + c) / 3)
    ensures Displayed([older + [Some(a), Some(b), Some(c)]]) == (a + b + c) / 3
    ensures Observed([[Some(a), Some(b)]]) == Some((a + b) / 2) && Displayed([[Some(a), Some(b)]]) == (a + b) / 2
    ensures Observed([[Some(a)]]) == Some(a) && Displayed([[Some(a)]]) == a
  {
    ThreeTotals(a, b, c);
    var s1: Samples, s2: Samples, s3: Samples := [Some(a)], [Some(a), Some(b)], [Some(a), Some(b), Some(c)];
    assert Tail(s1) == s1 && Tail(s2) == s2 && Tail(older + s3) == s3;
    hide Total, Readable, Tail, Observed, Displayed;
    OneVoter(s1, a, 1);
    OneVoter(s2, a + b, 2);
    OneVoter(older + s3, a + b + c, 3);
  }

  // The i-th entry counted from the end, if there is one.
  function FromEnd(s: Samples, i: nat): Option<Option<nat>> { if 1 <= i <= |s| then Some(s[|s| - i]) else None }

  // Two lists that end alike for three entries.
  predicate EndAlike(s: Samples, t: Samples) { forall i :: 1 <= i <= 3 ==> FromEnd(s, i) == FromEnd(t, i) }

  lemma AlikeTails(s: Samples, t: Samples)
    requires EndAlike(s, t)
    ensures Tail(s) == Tail(t)
  {
    assert FromEnd(s, 1) == FromEnd(t, 1) && FromEnd(s, 2) == FromEnd(t, 2) && FromEnd(s, 3) == FromEnd(t, 3);
    assert |Tail(s)| == |Tail(t)|;
    forall j | 0 <= j < |Tail(s)|
      ensures Tail(s)[j] == Tail(t)[j]
    {
      var i := |Tail(s)| - j;
      assert Tail(s)[j] == s[|s| - i] && Tail(t)[j] == t[|t| - i] && FromEnd(s, i) == FromEnd(t, i);
    }
  }

  // Any number of pods: nothing but the last three entries of each list matters.
  lemma {:induction false} OnlyTheWindowCounts(pods: seq<Samples>, other: seq<Samples>)
    requires |pods| == |other| && forall i :: 0 <= i < |pods| ==> EndAlike(pods[i], other[i])
    ensures Voters(pods) == Voters(other) && MeanSum(pods) == MeanSum(other) && FloorSum(pods) == FloorSum(other)
    ensures Observed(pods) == Observed(other) && Displayed(pods) == Displayed(other)
    decreases |pods|
  {
    if pods != [] {
      var n := |pods| - 1;
      assert EndAlike(pods[n], other[n]);
      AlikeTails(pods[n], other[n]);
      OnlyTheWindowCounts(pods[..n], other[..n]);
    }
  }

  lemma {:induction false} TotalChanges(s: Samples, i: nat, x: nat, y: nat)
    requires i < |s| && s[i] == Some(x)
    ensures Total(s[i := Some(y)]) == Total(s) - x + y && Readable(s[i := Some(y)]) == Readable(s) >= 1
    decreases |s|
  {
    var n := |s| - 1;
    if i == n {
      assert s[i := Some(y)][..n] == s[..n];
    } else {
      assert s[i := Some(y)][..n] == s[..n][i := Some(y)];
      TotalChanges(s[..n], i, x, y);
    }
  }

  lemma {:induction false} SumsChange(pods: seq<Samples>, k: nat, s: Samples, rise: nat)
    requires k < |pods| && Readable(Tail(pods[k])) == Readable(Tail(s)) >= 1
    requires Total(Tail(s)) == Total(Tail(pods[k])) + rise * Readable(Tail(s))
    ensures Voters(pods[k := s]) == Voters(pods) >= 1
    ensures MeanSum(pods[k := s]) == MeanSum(pods) + rise as real && FloorSum(pods[k := s]) == FloorSum(pods) + rise
    decreases |pods|
  {
    hide Total, Readable, Tail;
    var n := |pods| - 1;
    if k == n {
      assert pods[k := s][..n] == pods[..n];
      QuotientShifts(Total(Tail(pods[k])), Readable(Tail(s)), rise);
    } else {
      assert pods[k := s][..n] == pods[..n][k := s];
      SumsChange(pods[..n], k, s, rise);
    }
  }

  lemma QuotientShifts(a: int, b: int, rise: nat)
    requires b > 0
    ensures (a + rise * b) / b == a / b + rise && (a + rise * b) as real / b as real == a as real / b as real + rise as real
  {
    QuotientUnique(a + rise * b, b, a / b + rise, a % b);
    MulAsReal(rise, b);
    var x := a as real / b as real;
    assert (x + rise as real) * b as real == a as real + (rise * b) as real;
  }

  // And each of those three matters: raising any one of them by one point for each of its pod's readable samples and
  // each pod that takes part raises both averages by exactly one.
  lemma EverySampleCounts(pods: seq<Samples>, k: nat, i: nat, x: nat)
    requires k < |pods| && 1 <= i <= 3 && i <= |pods[k]| && pods[k][|pods[k]| - i] == Some(x)
    ensures var raised := pods[k][|pods[k]| - i := Some(x + Voters(pods) * Readable(Tail(pods[k])))];
            && Observed(pods).Some? && Observed(pods[k := raised]) == Some(Observed(pods).value + 1)
            && Displayed(pods[k := raised]) == Displayed(pods) + 1
  {
    hide Total, Readable, MeanSum, FloorSum, Voters;
    var v := Voters(pods);
    var raised := pods[k][|pods[k]| - i := Some(x + v * Readable(Tail(pods[k])))];
    WindowRises(pods[k], i, x, v);
    hide Tail;
    SumsChange(pods, k, raised, v);
    AverageShifts(MeanSum(pods), FloorSum(pods), v);
  }

  lemma WindowRises(s: Samples, i: nat, x: nat, v: nat)
    requires 1 <= i <= 3 && i <= |s| && s[|s| - i] == Some(x)
    ensures var raised := s[|s| - i := Some(x + v * Readable(Tail(s)))];
            && Readable(Tail(raised)) == Readable(Tail(s)) >= 1
            && Total(Tail(raised)) == Total(Tail(s)) + v * Readable(Tail(s))
  {
    hide Total, Readable;
    var w := Tail(s);
    var rise := v * Readable(w);
    WindowFollows(s, i, Some(x + rise));
    hide Tail;
    TotalChanges(w, |w| - i, x, x + rise);
  }

  lemma WindowFollows(s: Samples, i: nat, x: Option<nat>)
    requires 1 <= i <= 3 && i <= |s|
    ensures i <= |Tail(s)| && Tail(s)[|Tail(s)| - i] == s[|s| - i] && Tail(s[|s| - i := x]) == Tail(s)[|Tail(s)| - i := x]
  {
  }

  lemma AverageShifts(m: real, f: nat, v: nat)
    requires v >= 1
    ensures ((m + v as real) / v as real).Floor == (m / v as real).Floor + 1 && (f + v) / v == f / v + 1
  {
    QuotientShifts(f, v, 1);
    var x, y := m / v as real, (m + v as real) / v as real;
    RealShift(m, v as real);
    assert y == x + 1.0;
    assert (x + 1.0).Floor == x.Floor + 1;
  }

  lemma RealShift(m: real, c: real)
    requires c > 0.0
    ensures (m + c) / c == m / c + 1.0
  {
    var x, y := m / c, (m + c) / c;
    assert x * c == m && y * c == m + c;
    var d := y - x - 1.0;
    assert d * c == y * c - x * c - c == 0.0;
    assert d > 0.0 ==> d * c > 0.0;
    assert d < 0.0 ==> d * c < 0.0;
  }

  // ----- the two averages compared -----

  lemma MulAsReal(q: int, b: int)
    ensures (q * b) as real == q as real * b as real
  {
  }

  lemma RealQuotient(y: real, c: real, z: real)
    requires c > 0.0
    ensures z * c <= y <==> z <= y / c
  {
    var x := y / c;
    assert x * c == y;
    assert (x - z) * c == y - z * c;
    assert x >= z ==> (x - z) * c >= 0.0;
    assert x < z ==> (x - z) * c < 0.0;
  }

  // Integer division rounds an exact quotient down by less than one.
  lemma FloorOfQuotient(a: int, b: int)
    requires b > 0
    ensures (a / b) as real <= a as real / b as real < (a / b) as real + 1.0
  {
    var q := a / b;
    QuotientBounds(a, b);
    MulAsReal(q, b);
    MulAsReal(q + 1, b);
    RealQuotient(a as real, b as real, q as real);
    RealQuotient(a as real, b as real, (q + 1) as real);
  }

  lemma {:induction false} SumsApart(pods: seq<Samples>)
    ensures FloorSum(pods) as real <= MeanSum(pods) <= (FloorSum(pods) + Voters(pods)) as real
    ensures Voters(pods) > 0 ==> MeanSum(pods) < (FloorSum(pods) + Voters(pods)) as real
  {
    if pods != [] {
      var last := Tail(pods[|pods| - 1]);
      SumsApart(pods[..|pods| - 1]);
      if Readable(last) > 0 {
        FloorOfQuotient(Total(last), Readable(last));
      }
    }
  }

  // The page and the autoscaler read the same telemetry almost alike: the page is never above, never more than one
  // point below, and both have nothing to report in the same cases.
  lemma AveragesAgree(pods: seq<Samples>)
    ensures Observed(pods).None? <==> Voters(pods) == 0
    ensures Observed(pods).None? ==> Displayed(pods) == 0
    ensures Observed(pods).Some? ==> Displayed(pods) <= Observed(pods).value <= Displayed(pods) + 1
  {
    hide MeanSum, FloorSum, Voters;
    if Voters(pods) > 0 {
      SumsApart(pods);
      FloorsApart(MeanSum(pods), FloorSum(pods), Voters(pods));
    }
  }

  lemma FloorsApart(m: real, f: nat, v: nat)
    requires v > 0 && f as real <= m < (f + v) as real
    ensures f / v <= (m / v as real).Floor <= f / v + 1
  {
    var d := f / v;
    QuotientBounds(f, v);
    assert d * v <= f && f + v < (d + 2) * v;
    assert (d * v) as real <= m < ((d + 2) * v) as real;
    MulAsReal(d, v);
    MulAsReal(d + 2, v);
    RealQuotient(m, v as real, d as real);
    RealQuotient(m, v as real, (d + 2) as real);
  }

  // What the page drops when it rounds each pod's mean down.
  function Dropped(pods: seq<Samples>): real { MeanSum(pods) - FloorSum(pods) as real }

  // The two agree exactly when the remainder the page drops in its last division, together with the fractions it
  // dropped before, makes less than one point per pod.
  lemma AveragesEqualIff(pods: seq<Samples>)
    requires Voters(pods) > 0
    ensures Displayed(pods) == Observed(pods).value <==>
              (FloorSum(pods) % Voters(pods)) as real + Dropped(pods) < Voters(pods) as real
  {
    AveragesAgree(pods);
    hide MeanSum, FloorSum, Voters;
    var m, f, v := MeanSum(pods), FloorSum(pods), Voters(pods);
    var d := f / v;
    MulAsReal(d + 1, v);
    RealQuotient(m, v as real, (d + 1) as real);
    assert f == d * v + f % v && (d + 1) * v == d * v + v;
  }

  // The gap is real: two pods at 50.5 and 51.5 percent show as 50 on the page and scale as 51.
  lemma AveragesDiffer()
    ensures var pods: seq<Samples> := [[Some(50), Some(51)], [Some(51), Some(52)]];
            Displayed(pods) == 50 && Observed(pods) == Some(51)
  {
    var a: Samples, b: Samples := [Some(50), Some(51)], [Some(51), Some(52)];
    var pods: seq<Samples> := [a, b];
    assert a[..1] == [Some(50)] && b[..1] == [Some(51)] && a[..1][..0] == [] && b[..1][..0] == [];
    assert Total(a[..1]) == 50 && Total(a) == 101 && Readable(a[..1]) == 1 && Readable(a) == 2;
    assert Total(b[..1]) == 51 && Total(b) == 103 && Readable(b[..1]) == 1 && Readable(b) == 2;
    assert pods[..1] == [a] && |pods[..1][..0]| == 0;
    assert Voters(pods[..1]) == 1 && Voters(pods) == 2;
    assert FloorSum(pods[..1]) == 50 && FloorSum(pods) == 101;
    assert MeanSum(pods[..1]) == 50.5 && MeanSum(pods) == 102.0;
  }
}
