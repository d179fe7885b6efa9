/** From pod records to the router's file, and the rule that skips a rewrite (internal/ingress/ingress.go). */
module Routing {
  import opened Collections
  import opened Schema
  import opened Text
  import opened Ingress

  // ----- the serving pods -----

  predicate Serving(p: Pod) { p.deployment != "" && p.status == Running && p.hostPort > 0 }

  predicate IntLeq(a: nat, b: nat) { a <= b }

  // The ports of one deployment in the order the scan meets them.
  function Collect(pods: map<PodKey, Pod>, scan: seq<PodKey>, name: string): seq<nat>
    requires forall k :: k in scan ==> k in pods
  {
    if scan == [] then []
    else
      var n := |scan| - 1;
      assert scan[n] in scan;
      var p, rest := pods[scan[n]], Collect(pods, scan[..n], name);
      if Serving(p) && p.deployment == name then rest + [p.hostPort] else rest
  }

  function Names(pods: map<PodKey, Pod>, keys: set<PodKey>): set<string> {
    set k | k in keys && k in pods && Serving(pods[k]) :: pods[k].deployment
  }

  function BackendsIn(pods: map<PodKey, Pod>, scan: seq<PodKey>): map<string, seq<nat>>
    requires forall k :: k in scan ==> k in pods
  {
    map name | name in Names(pods, Elements(scan)) :: SortBy(Collect(pods, scan, name), IntLeq)
  }

  function Vote(pods: map<PodKey, Pod>, k: PodKey, name: string, port: nat): int {
    if k in pods && Serving(pods[k]) && pods[k].deployment == name && pods[k].hostPort == port then 1 else 0
  }

  function Votes(pods: map<PodKey, Pod>, name: string, port: nat): PodKey -> int { k => Vote(pods, k, name, port) }

  lemma CollectOneMore(pods: map<PodKey, Pod>, scan: seq<PodKey>, name: string, port: nat)
    requires (forall k :: k in scan ==> k in pods) && scan != []
    ensures var n := |scan| - 1;
            multiset(Collect(pods, scan, name))[port]
              == multiset(Collect(pods, scan[..n], name))[port] + Vote(pods, scan[n], name, port)
  {
  }

  lemma CollectNothing(pods: map<PodKey, Pod>, name: string, port: nat)
    ensures multiset(Collect(pods, [], name))[port] == 0 == Sum({}, Votes(pods, name, port))
  {
  }

  lemma LastSplits(scan: seq<PodKey>)
    requires scan != [] && forall i, j :: 0 <= i < j < |scan| ==> scan[i] != scan[j]
    ensures scan[|scan| - 1] in Elements(scan)
    ensures Elements(scan) - {scan[|scan| - 1]} == Elements(scan[..|scan| - 1])
  {
  }

  lemma {:induction false} CollectCounts(pods: map<PodKey, Pod>, scan: seq<PodKey>, name: string, port: nat)
    requires forall k :: k in scan ==> k in pods
    requires forall i, j :: 0 <= i < j < |scan| ==> scan[i] != scan[j]
    ensures multiset(Collect(pods, scan, name))[port] == Sum(Elements(scan), Votes(pods, name, port))
    decreases |scan|
  {
    hide Collect, Vote, Votes, Sum, Elements;
    if scan == [] {
      CollectNothing(pods, name, port);
      assert Elements(scan) == {} by { EmptyElements(); }
    } else {
      var n := |scan| - 1;
      CollectCounts(pods, scan[..n], name, port);
      CollectOneMore(pods, scan, name, port);
      LastSplits(scan);
      SumSplit(Elements(scan), scan[n], Votes(pods, name, port));
      VoteOf(pods, scan[n], name, port);
    }
  }

  lemma EmptyElements()
    ensures Elements<PodKey>([]) == {}
  {
  }

  lemma VoteOf(pods: map<PodKey, Pod>, k: PodKey, name: string, port: nat)
    ensures Votes(pods, name, port)(k) == Vote(pods, k, name, port)
  {
  }

  // Pods are read in any order; the ports of a deployment come out the same, repeats included.
  lemma PortsScanFree(pods: map<PodKey, Pod>, a: seq<PodKey>, b: seq<PodKey>, name: string)
    requires IsScan(a, pods.Keys) && IsScan(b, pods.Keys)
    requires (forall k :: k in a ==> k in pods) && (forall k :: k in b ==> k in pods)
    ensures SortBy(Collect(pods, a, name), IntLeq) == SortBy(Collect(pods, b, name), IntLeq)
  {
    hide SortBy;
    var x, y := Collect(pods, a, name), Collect(pods, b, name);
    var mx: multiset<nat>, my: multiset<nat> := multiset(x), multiset(y);
    forall port: nat
      ensures mx[port] == my[port]
    {
      CollectCounts(pods, a, name, port);
      CollectCounts(pods, b, name, port);
    }
    assert mx == my;
    SortByPermutes(x, IntLeq);
    SortByPermutes(y, IntLeq);
    SortBySorts(x, IntLeq);
    SortBySorts(y, IntLeq);
    SortedUnique(SortBy(x, IntLeq), SortBy(y, IntLeq), IntLeq);
  }

  ghost predicate ScansAll(pods: map<PodKey, Pod>, scan: seq<PodKey>) {
    IsScan(scan, pods.Keys) && forall k :: k in scan ==> k in pods
  }

  lemma BackendsScanFree(pods: map<PodKey, Pod>, a: seq<PodKey>, b: seq<PodKey>)
    requires ScansAll(pods, a) && ScansAll(pods, b)
    ensures BackendsIn(pods, a) == BackendsIn(pods, b)
  {
    forall name | name in Names(pods, pods.Keys)
      ensures BackendsIn(pods, a)[name] == BackendsIn(pods, b)[name]
    {
      PortsScanFree(pods, a, b, name);
    }
  }

  lemma SomeScan(pods: map<PodKey, Pod>)
    ensures exists scan :: ScansAll(pods, scan)
  {
    ScanExists(pods.Keys);
    var scan: seq<PodKey> :| IsScan(scan, pods.Keys);
    assert forall k :: k in scan ==> k in Elements(scan);
    assert ScansAll(pods, scan);
  }

  // What the router should know, as a function of the records alone.
  ghost function Backends(pods: map<PodKey, Pod>): map<string, seq<nat>> {
    SomeScan(pods);
    var scan :| ScansAll(pods, scan); BackendsIn(pods, scan)
  }

  function Grouped(pods: map<PodKey, Pod>, scan: seq<PodKey>): map<string, seq<nat>>
    requires forall k :: k in scan ==> k in pods
  {
    map name | name in Names(pods, Elements(scan)) :: Collect(pods, scan, name)
  }

  lemma {:induction false} UnnamedCollectNothing(pods: map<PodKey, Pod>, scan: seq<PodKey>, name: string)
    requires (forall k :: k in scan ==> k in pods) && name !in Names(pods, Elements(scan))
    ensures Collect(pods, scan, name) == []
    decreases |scan|
  {
    if scan != [] {
      var n := |scan| - 1;
      assert scan[n] in Elements(scan) && Elements(scan[..n]) <= Elements(scan);
      UnnamedCollectNothing(pods, scan[..n], name);
    }
  }

  function WithPort(groups: map<string, seq<nat>>, p: Pod): map<string, seq<nat>>
    requires p.hostPort > 0
  {
    groups[p.deployment := (if p.deployment in groups then groups[p.deployment] else []) + [p.hostPort]]
  }

  // The names and the ports once one more record is read.
  lemma NamesOneMore(pods: map<PodKey, Pod>, scan: seq<PodKey>, k: PodKey)
    requires k in pods
    ensures Names(pods, Elements(scan + [k]))
         == Names(pods, Elements(scan)) + if Serving(pods[k]) then {pods[k].deployment} else {}
  {
    assert Elements(scan + [k]) == Elements(scan) + {k};
  }

  lemma PortsOneMore(pods: map<PodKey, Pod>, scan: seq<PodKey>, k: PodKey, name: string)
    requires (forall j :: j in scan ==> j in pods) && k in pods
    ensures Collect(pods, scan + [k], name)
         == if Serving(pods[k]) && pods[k].deployment == name then Collect(pods, scan, name) + [pods[k].hostPort]
            else Collect(pods, scan, name)
  {
    assert (scan + [k])[..|scan|] == scan;
  }

  lemma GroupOneMore(pods: map<PodKey, Pod>, scan: seq<PodKey>, k: PodKey)
    requires (forall j :: j in scan ==> j in pods) && k in pods
    ensures Grouped(pods, scan + [k])
         == if Serving(pods[k]) then WithPort(Grouped(pods, scan), pods[k]) else Grouped(pods, scan)
  {
    hide Collect, Names;
    var p := pods[k];
    NamesOneMore(pods, scan, k);
    forall name
      ensures Collect(pods, scan + [k], name)
           == if Serving(p) && p.deployment == name then Collect(pods, scan, name) + [p.hostPort]
              else Collect(pods, scan, name)
    {
      PortsOneMore(pods, scan, k, name);
    }
    if Serving(p) && p.deployment !in Names(pods, Elements(scan)) {
      UnnamedCollectNothing(pods, scan, p.deployment);
    }
  }

  method GroupPorts(pods: map<PodKey, Pod>, scan: seq<PodKey>) returns (raw: map<string, seq<nat>>)
    requires forall k :: k in scan ==> k in pods
    ensures raw == Grouped(pods, scan)
  {
    hide Grouped;
    raw := map[];
    GroupedStarts(pods);
    assert scan[..0] == [];
    for i := 0 to |scan|
      invariant raw == Grouped(pods, scan[..i])
    {
      assert scan[..i + 1] == scan[..i] + [scan[i]] && scan[i] in scan;
      GroupOneMore(pods, scan[..i], scan[i]);
      var pod := pods[scan[i]];
      if pod.deployment == "" { continue; }
      if pod.status != Running || pod.hostPort <= 0 { continue; }
      raw := raw[pod.deployment := (if pod.deployment in raw then raw[pod.deployment] else []) + [pod.hostPort]];
    }
    assert scan[..|scan|] == scan;
  }

  lemma GroupedStarts(pods: map<PodKey, Pod>)
    ensures Grouped(pods, []) == map[]
  {
  }

  method ReadBackends(pods: map<PodKey, Pod>, scan: seq<PodKey>) returns (backends: map<string, seq<nat>>)
    requires IsScan(scan, pods.Keys)
    ensures backends == Backends(pods)
  {
    assert forall k :: k in scan ==> k in Elements(scan);
    var raw := GroupPorts(pods, scan);
    backends := map name | name in raw :: SortBy(raw[name], IntLeq);
    assert backends == BackendsIn(pods, scan);
    BackendsAnyScan(pods, scan);
  }

  lemma BackendsAnyScan(pods: map<PodKey, Pod>, scan: seq<PodKey>)
    requires ScansAll(pods, scan)
    ensures Backends(pods) == BackendsIn(pods, scan)
  {
    SomeScan(pods);
    var other :| ScansAll(pods, other) && Backends(pods) == BackendsIn(pods, other);
    BackendsScanFree(pods, scan, other);
  }

  // A deployment is routed exactly when a pod of it runs with a port, and each port is listed, in order, as often as
  // such pods record it.
  lemma BackendsMeaning(pods: map<PodKey, Pod>, name: string, port: nat)
    ensures name in Backends(pods) <==>
              exists k :: k in pods && pods[k].deployment == name != "" && pods[k].status == Running && pods[k].hostPort > 0
    ensures name in Backends(pods) ==>
              && SortedBy(Backends(pods)[name], IntLeq)
              && multiset(Backends(pods)[name])[port] == Sum(pods.Keys, Votes(pods, name, port))
  {
    hide SortBy, Collect, Votes, Sum;
    SomeScan(pods);
    var scan :| ScansAll(pods, scan);
    BackendsAnyScan(pods, scan);
    CollectCounts(pods, scan, name, port);
    SortBySorts(Collect(pods, scan, name), IntLeq);
    SortByPermutes(Collect(pods, scan, name), IntLeq);
  }

  lemma {:induction false} NamedCollectSomething(pods: map<PodKey, Pod>, scan: seq<PodKey>, name: string)
    requires (forall k :: k in scan ==> k in pods) && name in Names(pods, Elements(scan))
    ensures Collect(pods, scan, name) != []
    decreases |scan|
  {
    var n := |scan| - 1;
    assert scan == scan[..n] + [scan[n]];
    if !(Serving(pods[scan[n]]) && pods[scan[n]].deployment == name) {
      assert Elements(scan) == Elements(scan[..n]) + {scan[n]};
      NamedCollectSomething(pods, scan[..n], name);
    }
  }

  // ----- the file as a function of the backends -----

  ghost predicate IsSortedScan(names: seq<string>, keys: set<string>) { IsScan(names, keys) && SortedBy(names, StringLeq) }

  lemma SortedScanUnique(a: seq<string>, b: seq<string>, keys: set<string>)
    requires IsSortedScan(a, keys) && IsSortedScan(b, keys)
    ensures a == b
  {
    DistinctMultisets(a, b, keys);
    StringsTotallyOrdered(Elements(a));
    SortedUnique(a, b, StringLeq);
  }

  ghost function SortedNames(keys: set<string>): (names: seq<string>)
    ensures IsSortedScan(names, keys)
  {
    ScanExists(keys);
    var scan: seq<string> :| IsScan(scan, keys);
    StringsTotallyOrdered(keys);
    SortKeepsScan(scan, keys, StringLeq);
    SortBy(scan, StringLeq)
  }

  // A deployment with nothing running is left out: an upstream without servers is an error.
  function Entries(backends: map<string, seq<nat>>, names: seq<string>): seq<Entry> {
    if names == [] then []
    else
      var last := names[|names| - 1];
      Entries(backends, names[..|names| - 1]) + Listed(backends, last)
  }

  function Listed(backends: map<string, seq<nat>>, name: string): seq<Entry> {
    if name !in backends || backends[name] == [] then [] else [Entry(name, backends[name])]
  }

  ghost function Rendered(backends: map<string, seq<nat>>): string {
    RenderEntries(Entries(backends, SortedNames(backends.Keys)))
  }

  lemma {:induction false} UpstreamsConcat(a: seq<Entry>, b: seq<Entry>)
    ensures Upstreams(a + b) == Upstreams(a) + Upstreams(b)
    decreases |a|
  {
    hide UpstreamBlock;
    if a == [] {
      assert a + b == b;
    } else {
      assert (a + b)[1..] == a[1..] + b;
      UpstreamsConcat(a[1..], b);
    }
  }

  lemma {:induction false} LocationsConcat(a: seq<Entry>, b: seq<Entry>)
    ensures Locations(a + b) == Locations(a) + Locations(b)
    decreases |a|
  {
    hide LocationBlock;
    if a == [] {
      assert a + b == b;
    } else {
      assert (a + b)[1..] == a[1..] + b;
      LocationsConcat(a[1..], b);
    }
  }

  lemma {:induction false} ServersSnoc(ports: seq<nat>, p: nat)
    ensures Servers(ports + [p]) == Servers(ports) + (ServerOpen() + ToDecimal(p) + ServerEnd())
    decreases |ports|
  {
    hide ServerOpen, ServerEnd, ToDecimal;
    if ports == [] {
      assert ports + [p] == [p];
    } else {
      assert (ports + [p])[1..] == ports[1..] + [p];
      ServersSnoc(ports[1..], p);
    }
  }

  method WriteUpstream(name: string, ports: seq<nat>) returns (block: string)
    ensures block == Upstreams([Entry(name, ports)])
  {
    hide ServerOpen, ServerEnd, ToDecimal, UpstreamOpen, BraceOpen, BraceClose, Underscored;
    var lines := "";
    assert ports[..0] == [];
    for i := 0 to |ports|
      invariant lines == Servers(ports[..i])
    {
      assert ports[..i + 1] == ports[..i] + [ports[i]];
      ServersSnoc(ports[..i], ports[i]);
      lines := lines + (ServerOpen() + ToDecimal(ports[i]) + ServerEnd());
    }
    assert ports[..|ports|] == ports;
    block := UpstreamOpen() + Underscored(name) + BraceOpen() + lines + BraceClose();
    assert block == block + "";
  }

  lemma EntriesStep(backends: map<string, seq<nat>>, names: seq<string>, i: nat)
    requires i < |names|
    ensures Entries(backends, names[..i + 1]) == Entries(backends, names[..i]) + Listed(backends, names[i])
  {
    assert names[..i + 1][..i] == names[..i];
  }

  method RenderUpstreams(backends: map<string, seq<nat>>, names: seq<string>) returns (text: string)
    ensures text == Upstreams(Entries(backends, names))
  {
    hide Upstreams, Entries;
    text := "";
    NothingRendered(backends, names);
    for i := 0 to |names|
      invariant text == Upstreams(Entries(backends, names[..i]))
    {
      EntriesStep(backends, names, i);
      UpstreamsConcat(Entries(backends, names[..i]), Listed(backends, names[i]));
      if names[i] !in backends || |backends[names[i]]| == 0 { continue; }
      var block := WriteUpstream(names[i], backends[names[i]]);
      text := text + block;
    }
    assert names[..|names|] == names;
  }

  lemma OneLocation(name: string, ports: seq<nat>)
    ensures Locations([Entry(name, ports)]) == LocationBlock(name)
  {
    hide LocationBlock;
    assert Locations([Entry(name, ports)]) == LocationBlock(name) + "";
  }

  method RenderLocations(backends: map<string, seq<nat>>, names: seq<string>) returns (text: string)
    ensures text == Locations(Entries(backends, names))
  {
    hide Locations, LocationBlock, Entries;
    text := "";
    NothingRendered(backends, names);
    for i := 0 to |names|
      invariant text == Locations(Entries(backends, names[..i]))
    {
      EntriesStep(backends, names, i);
      LocationsConcat(Entries(backends, names[..i]), Listed(backends, names[i]));
      if names[i] !in backends || |backends[names[i]]| == 0 { continue; }
      OneLocation(names[i], backends[names[i]]);
      text := text + LocationBlock(names[i]);
    }
    assert names[..|names|] == names;
  }

  method Render(backends: map<string, seq<nat>>, order: seq<string>) returns (text: string)
    requires IsScan(order, backends.Keys)
    ensures text == Rendered(backends)
  {
    hide Upstreams, Locations, SortBy, StringLeq, Header, Entries;
    StringsTotallyOrdered(backends.Keys);
    SortKeepsScan(order, backends.Keys, StringLeq);
    var names := SortBy(order, StringLeq);
    SortedScanUnique(names, SortedNames(backends.Keys), backends.Keys);
    var upstreams := RenderUpstreams(backends, names);
    var locations := RenderLocations(backends, names);
    text := Header() + upstreams + locations;
  }

  lemma NothingRendered(backends: map<string, seq<nat>>, names: seq<string>)
    ensures Upstreams(Entries(backends, names[..0])) == "" && Locations(Entries(backends, names[..0])) == ""
    ensures Upstreams([]) == "" && Locations([]) == ""
  {
    hide LocationBlock, UpstreamBlock;
  }

  // ----- equal files mean equal backends -----

  ghost predicate WellNamed(backends: map<string, seq<nat>>) {
    forall name :: name in backends ==> ValidName(name) && backends[name] != []
  }

  lemma {:induction false} EntriesFull(backends: map<string, seq<nat>>, names: seq<string>)
    requires (forall name :: name in names ==> name in backends) && WellNamed(backends)
    ensures |Entries(backends, names)| == |names|
    ensures forall i :: 0 <= i < |names| ==> Entries(backends, names)[i] == Entry(names[i], backends[names[i]])
    decreases |names|
  {
    if names != [] {
      var n := |names| - 1;
      EntriesFull(backends, names[..n]);
      assert names == names[..n] + [names[n]];
    }
  }

  lemma EntriesDetermine(a: map<string, seq<nat>>, b: map<string, seq<nat>>, x: seq<string>, y: seq<string>)
    requires WellNamed(a) && WellNamed(b) && Entries(a, x) == Entries(b, y)
    requires (forall name :: name in x <==> name in a) && (forall name :: name in y <==> name in b)
    ensures a == b
  {
    hide ValidName, Entries;
    EntriesFull(a, x);
    EntriesFull(b, y);
    forall i | 0 <= i < |x|
      ensures x[i] == y[i] && x[i] in b && a[x[i]] == b[x[i]]
    {
      assert Entries(a, x)[i] == Entries(b, y)[i] && y[i] in y;
    }
    assert x == y;
  }

  lemma EntriesReadBack(backends: map<string, seq<nat>>, names: seq<string>)
    requires WellNamed(backends) && forall name :: name in names ==> name in backends
    ensures Parse(RenderEntries(Entries(backends, names))).upstreams == Entries(backends, names)
  {
    hide ValidName, Entries, Parse, RenderEntries;
    EntriesFull(backends, names);
    RenderRoundTrip(Entries(backends, names));
  }

  lemma RenderInjective(a: map<string, seq<nat>>, b: map<string, seq<nat>>)
    requires WellNamed(a) && WellNamed(b) && Rendered(a) == Rendered(b)
    ensures a == b
  {
    hide RenderEntries, Parse, IsSortedScan, WellNamed, Entries;
    NamesOf(a);
    NamesOf(b);
    EntriesReadBack(a, SortedNames(a.Keys));
    EntriesReadBack(b, SortedNames(b.Keys));
    EntriesDetermine(a, b, SortedNames(a.Keys), SortedNames(b.Keys));
  }

  lemma NamesOf(backends: map<string, seq<nat>>)
    ensures forall name :: name in SortedNames(backends.Keys) <==> name in backends
  {
    var names := SortedNames(backends.Keys);
    assert forall name :: name in names <==> name in Elements(names);
  }

  ghost predicate ValidlyNamed(pods: map<PodKey, Pod>) { forall k :: k in pods ==> ValidName(pods[k].deployment) }

  ghost predicate RenderAlike(a: map<string, seq<nat>>, b: map<string, seq<nat>>) { Rendered(a) == Rendered(b) }

  // Two sets of records that render alike route alike, so skipping the rewrite loses nothing.
  lemma SkipIsSound(pods: map<PodKey, Pod>, other: map<PodKey, Pod>)
    requires ValidlyNamed(pods) && ValidlyNamed(other)
    ensures RenderAlike(Backends(pods), Backends(other)) <==> Backends(pods) == Backends(other)
  {
    hide Rendered, ValidlyNamed;
    BackendsWellNamed(pods);
    BackendsWellNamed(other);
    if Rendered(Backends(pods)) == Rendered(Backends(other)) {
      RenderInjective(Backends(pods), Backends(other));
    }
  }

  lemma BackendsWellNamed(pods: map<PodKey, Pod>)
    requires ValidlyNamed(pods)
    ensures WellNamed(Backends(pods))
  {
    hide ValidName, SortBy;
    SomeScan(pods);
    var scan :| ScansAll(pods, scan);
    BackendsAnyScan(pods, scan);
    forall name | name in Backends(pods)
      ensures ValidName(name) && Backends(pods)[name] != []
    {
      NamedCollectSomething(pods, scan, name);
      SortByPermutes(Collect(pods, scan, name), IntLeq);
    }
  }

  // ----- Sync -----

  datatype Reload = ReloadOk | ReloadMissing | ReloadFails

  /** The controller's memory, the file on disk and the configuration the router has loaded. */
  datatype Router = Router(lastWritten: string, file: string, loaded: string)

  function Synced(r: Router, rendered: string, writeOk: bool, reload: Reload): (Router, bool) {
    if rendered == r.lastWritten then (r, true)
    else if !writeOk then (r, false)
    else
      (Router(rendered, rendered, if reload == ReloadOk then rendered else r.loaded), reload != ReloadFails)
  }

  // The controller is the only writer of the file; it has written nothing while its memory is empty.
  predicate Faithful(r: Router) { r.lastWritten == "" || r.file == r.lastWritten }

  class Controller {
    var lastWritten: string
    var file: string
    var loaded: string

    ghost function View(): Router
      reads this
    {
      Router(lastWritten, file, loaded)
    }

    constructor (file: string, loaded: string)
      ensures View() == Router("", file, loaded) && Faithful(View())
    {
      this.lastWritten, this.file, this.loaded := "", file, loaded;
    }

    // After every successful sync the file is the rendering of the pods running now.
    method Sync(pods: map<PodKey, Pod>, scan: seq<PodKey>, listing: set<string> -> seq<string>, writeOk: bool,
                reload: Reload) returns (ok: bool)
      requires Faithful(View()) && IsScan(scan, pods.Keys)
      requires forall names :: IsScan(listing(names), names)
      modifies this
      ensures (View(), ok) == Synced(old(View()), Rendered(Backends(pods)), writeOk, reload)
      ensures Faithful(View()) && (ok ==> file == Rendered(Backends(pods)))
    {
      hide Backends, RenderEntries;
      var backends := ReadBackends(pods, scan);
      var rendered := Render(backends, listing(backends.Keys));
      NeverEmpty(backends);
      if rendered == lastWritten {
        return true;
      }
      if !writeOk {
        return false;
      }
      file := rendered;
      lastWritten := rendered;
      if reload == ReloadOk {
        loaded := rendered;
      }
      ok := reload != ReloadFails;
    }
  }

  lemma NeverEmpty(backends: map<string, seq<nat>>)
    ensures Rendered(backends) != ""
  {
  }
}
