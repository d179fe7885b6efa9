/** The router's configuration file: how it is rendered, and a parser that reads it back
    (internal/ingress/ingress.go). */
module Ingress {
  import opened Text

  // ----- rendering -----

  /** One deployment with the host ports of its serving pods. */
  datatype Entry = Entry(name: string, ports: seq<nat>)

  function Header(): string { "# Generated by mini-k8s. Do not edit: rewritten on every change.\n" }
  function UpstreamOpen(): string { "\nupstream minik8s_" }
  function BraceOpen(): string { " {\n" }
  function ServerOpen(): string { "    server 127.0.0.1:" }
  function ServerEnd(): string { " max_fails=2 fail_timeout=5s;\n" }
  function BraceClose(): string { "}\n" }
  function LocationOpen(): string { "\nlocation /" }
  function Slash(): string { "/" }
  function ProxyTo(): string { " {\n    proxy_pass http://minik8s_" }
  function ProxyPass(): string { Slash() + ProxyTo() }
  function ProxySettings(): string {
    ";\n    proxy_set_header Host $host;\n    proxy_next_upstream error timeout http_502 http_503;\n}\n"
  }
  function LocationEnd(): string { Slash() + ProxySettings() }

  function Underscored(name: string): (r: string)
    ensures |r| == |name| && forall i :: 0 <= i < |r| ==> r[i] == if name[i] == '-' then '_' else name[i]
  {
    seq(|name|, i requires 0 <= i < |name| => if name[i] == '-' then '_' else name[i])
  }

  function Hyphenated(text: string): (r: string)
    ensures |r| == |text| && forall i :: 0 <= i < |r| ==> r[i] == if text[i] == '_' then '-' else text[i]
  {
    seq(|text|, i requires 0 <= i < |text| => if text[i] == '_' then '-' else text[i])
  }

  function Servers(ports: seq<nat>): string {
    if ports == [] then "" else ServerOpen() + ToDecimal(ports[0]) + ServerEnd() + Servers(ports[1..])
  }

  function UpstreamBlock(e: Entry): string {
    UpstreamOpen() + Underscored(e.name) + BraceOpen() + Servers(e.ports) + BraceClose()
  }

  function LocationBlock(name: string): string {
    LocationOpen() + name + ProxyPass() + Underscored(name) + LocationEnd()
  }

  function Upstreams(entries: seq<Entry>): string {
    if entries == [] then "" else UpstreamBlock(entries[0]) + Upstreams(entries[1..])
  }

  function Locations(entries: seq<Entry>): string {
    if entries == [] then "" else LocationBlock(entries[0].name) + Locations(entries[1..])
  }

  function RenderEntries(entries: seq<Entry>): string { Header() + Upstreams(entries) + Locations(entries) }

  // How the fixed pieces begin is all the proofs need to know about them.
  lemma PiecesBegin()
    ensures ServerOpen() != "" && ServerOpen()[0] == ' ' && ServerEnd() != "" && ServerEnd()[0] == ' '
    ensures BraceOpen() != "" && BraceOpen()[0] == ' ' && BraceClose() != "" && BraceClose()[0] == '}'
    ensures |LocationOpen()| > 1 && LocationOpen()[1] == 'l' && |UpstreamOpen()| > 1 && UpstreamOpen()[1] == 'u'
  {
  }

  lemma RoutePiecesBegin()
    ensures ProxyPass() != "" && ProxyPass()[0] == '/' && LocationEnd() != "" && LocationEnd()[0] == '/'
  {
    hide ProxyTo, ProxySettings;
  }

  // ----- a parser for it -----

  function ReadServers(t: string): (r: (seq<nat>, string))
    ensures |r.1| <= |t|
    decreases |t|
  {
    if !StartsWith(t, ServerOpen()) then ([], t)
    else
      var (port, rest) := ReadNat(t[|ServerOpen()|..]);
      if !StartsWith(rest, ServerEnd()) then ([], t)
      else
        var (ports, end) := ReadServers(rest[|ServerEnd()|..]);
        ([port] + ports, end)
  }

  // Up to the character that ends it.
  function ReadName(t: string, stop: char): (r: (string, string))
    ensures |r.1| <= |t|
    decreases |t|
  {
    if t == "" || t[0] == stop then ("", t)
    else
      var (name, rest) := ReadName(t[1..], stop);
      ([t[0]] + name, rest)
  }

  // The upstream blocks, and the text after them.
  function ReadUpstreams(t: string): (r: (seq<Entry>, string))
    ensures |r.1| <= |t|
    decreases |t|
  {
    if !StartsWith(t, UpstreamOpen()) then ([], t)
    else
      var (name, t1) := ReadName(t[|UpstreamOpen()|..], ' ');
      if !StartsWith(t1, BraceOpen()) then ([], t)
      else
        var (ports, t2) := ReadServers(t1[|BraceOpen()|..]);
        if !StartsWith(t2, BraceClose()) then ([], t)
        else
          var (entries, end) := ReadUpstreams(t2[|BraceClose()|..]);
          ([Entry(Hyphenated(name), ports)] + entries, end)
  }

  /** A path prefix and the deployment whose upstream it is proxied to. */
  datatype Route = Route(path: string, target: string)

  function ReadRoutes(t: string): seq<Route>
    decreases |t|
  {
    if !StartsWith(t, LocationOpen()) then []
    else
      var (path, t1) := ReadName(t[|LocationOpen()|..], '/');
      if !StartsWith(t1, ProxyPass()) then []
      else
        var (upstream, t2) := ReadName(t1[|ProxyPass()|..], '/');
        if !StartsWith(t2, LocationEnd()) then []
        else [Route(path, Hyphenated(upstream))] + ReadRoutes(t2[|LocationEnd()|..])
  }

  datatype Config = Config(upstreams: seq<Entry>, routes: seq<Route>)

  function Parse(text: string): Config {
    if StartsWith(text, Header()) then
      var (entries, rest) := ReadUpstreams(text[|Header()|..]);
      Config(entries, ReadRoutes(rest))
    else Config([], [])
  }

  // Deployment names are lower-case letters, digits and hyphens: no space, underscore or slash.
  predicate ValidName(name: string) {
    forall i :: 0 <= i < |name| ==> name[i] != ' ' && name[i] != '_' && name[i] != '/'
  }

  lemma {:induction false} ServersRoundTrip(ports: seq<nat>, rest: string)
    requires rest != "" && rest[0] == '}'
    ensures ReadServers(Servers(ports) + rest) == (ports, rest)
    decreases |ports|
  {
    hide ServerOpen, ServerEnd, ToDecimal, ReadNat;
    PiecesBegin();
    if ports == [] {
      assert Servers(ports) + rest == rest;
    } else {
      var tail := Servers(ports[1..]) + rest;
      var t1 := ServerEnd() + tail;
      assert Servers(ports) + rest == ServerOpen() + (ToDecimal(ports[0]) + t1);
      Prefixed(ServerOpen(), ToDecimal(ports[0]) + t1);
      assert t1[0] == ' ';
      DecimalRoundTrip(ports[0], t1);
      Prefixed(ServerEnd(), tail);
      ServersRoundTrip(ports[1..], rest);
      assert [ports[0]] + ports[1..] == ports;
    }
  }

  lemma {:induction false} NameRoundTrip(text: string, rest: string, stop: char)
    requires (forall i :: 0 <= i < |text| ==> text[i] != stop) && rest != "" && rest[0] == stop
    ensures ReadName(text + rest, stop) == (text, rest)
    decreases |text|
  {
    if text == "" {
      assert text + rest == rest;
    } else {
      assert (text + rest)[1..] == text[1..] + rest;
      NameRoundTrip(text[1..], rest, stop);
      assert [text[0]] + text[1..] == text;
    }
  }

  lemma UnderscoredRoundTrip(name: string)
    requires ValidName(name)
    ensures Hyphenated(Underscored(name)) == name
    ensures forall i :: 0 <= i < |name| ==> Underscored(name)[i] != ' ' && Underscored(name)[i] != '/'
  {
  }

  lemma Regroup(a: string, b: string, c: string, d: string, e: string, t: string)
    ensures a + b + c + d + e + t == a + (b + (c + (d + (e + t))))
  {
  }

  // One upstream block read off the front.
  lemma BlockRoundTrip(e: Entry, tail: string)
    requires ValidName(e.name)
    ensures ReadUpstreams(UpstreamBlock(e) + tail).0 == [e] + ReadUpstreams(tail).0
    ensures ReadUpstreams(UpstreamBlock(e) + tail).1 == ReadUpstreams(tail).1
  {
    PiecesBegin();
    UnderscoredRoundTrip(e.name);
    hide UpstreamOpen, BraceOpen, BraceClose, Underscored, Hyphenated, StartsWith, ReadName, ReadServers, Servers, ValidName;
    var t2 := BraceClose() + tail;
    var t1 := BraceOpen() + (Servers(e.ports) + t2);
    Regroup(UpstreamOpen(), Underscored(e.name), BraceOpen(), Servers(e.ports), BraceClose(), tail);
    assert t1[0] == ' ' && t2[0] == '}';
    Prefixed(UpstreamOpen(), Underscored(e.name) + t1);
    NameRoundTrip(Underscored(e.name), t1, ' ');
    Prefixed(BraceOpen(), Servers(e.ports) + t2);
    ServersRoundTrip(e.ports, t2);
    Prefixed(BraceClose(), tail);
  }

  lemma {:induction false} UpstreamsRoundTrip(entries: seq<Entry>, rest: string)
    requires forall i :: 0 <= i < |entries| ==> ValidName(entries[i].name)
    requires ReadUpstreams(rest).0 == [] && ReadUpstreams(rest).1 == rest
    ensures ReadUpstreams(Upstreams(entries) + rest).0 == entries
    ensures ReadUpstreams(Upstreams(entries) + rest).1 == rest
    decreases |entries|
  {
    hide Upstreams, ValidName, ReadUpstreams;
    if entries == [] {
      assert Upstreams(entries) + rest == rest by { NoUpstreams(); }
    } else {
      assert ValidName(entries[0].name);
      UpstreamsRoundTrip(entries[1..], rest);
      UpstreamsStep(entries, rest);
    }
  }

  lemma NoUpstreams()
    ensures Upstreams([]) == ""
  {
  }

  lemma UpstreamsStep(entries: seq<Entry>, rest: string)
    requires entries != [] && ValidName(entries[0].name)
    ensures ReadUpstreams(Upstreams(entries) + rest).0 == [entries[0]] + ReadUpstreams(Upstreams(entries[1..]) + rest).0
    ensures ReadUpstreams(Upstreams(entries) + rest).1 == ReadUpstreams(Upstreams(entries[1..]) + rest).1
  {
    hide UpstreamBlock, ValidName, ReadUpstreams;
    var tail := Upstreams(entries[1..]) + rest;
    BlockRoundTrip(entries[0], tail);
    assert Upstreams(entries) + rest == UpstreamBlock(entries[0]) + tail;
  }

  lemma NoBlock(t: string)
    ensures !StartsWith(t, UpstreamOpen()) ==> ReadUpstreams(t) == ([], t)
    ensures !StartsWith(t, LocationOpen()) ==> ReadRoutes(t) == []
  {
  }

  // One location read off the front.
  lemma LocationRoundTrip(name: string, tail: string)
    requires ValidName(name)
    ensures ReadRoutes(LocationBlock(name) + tail) == [Route(name, name)] + ReadRoutes(tail)
  {
    RoutePiecesBegin();
    UnderscoredRoundTrip(name);
    assert forall i :: 0 <= i < |name| ==> name[i] != '/';
    hide LocationOpen, ProxyPass, LocationEnd, Underscored, Hyphenated, StartsWith, ReadName, ValidName;
    var t2 := LocationEnd() + tail;
    var t1 := ProxyPass() + (Underscored(name) + t2);
    Regroup(LocationOpen(), name, ProxyPass(), Underscored(name), LocationEnd(), tail);
    assert t1[0] == '/' && t2[0] == '/';
    Prefixed(LocationOpen(), name + t1);
    NameRoundTrip(name, t1, '/');
    Prefixed(ProxyPass(), Underscored(name) + t2);
    NameRoundTrip(Underscored(name), t2, '/');
    Prefixed(LocationEnd(), tail);
  }

  // Every deployment reachable under its own name.
  function OwnRoutes(entries: seq<Entry>): (r: seq<Route>)
    ensures |r| == |entries| && forall i :: 0 <= i < |r| ==> r[i] == Route(entries[i].name, entries[i].name)
  {
    seq(|entries|, i requires 0 <= i < |entries| => Route(entries[i].name, entries[i].name))
  }

  lemma {:induction false} LocationsRoundTrip(entries: seq<Entry>)
    requires forall i :: 0 <= i < |entries| ==> ValidName(entries[i].name)
    ensures ReadRoutes(Locations(entries)) == OwnRoutes(entries)
    decreases |entries|
  {
    hide LocationBlock, LocationOpen, ValidName, StartsWith, ReadRoutes;
    if entries == [] {
      PiecesBegin();
      assert !StartsWith("", LocationOpen()) by { EmptyStartsNothing(LocationOpen()); }
      NoBlock("");
    } else {
      assert ValidName(entries[0].name);
      LocationRoundTrip(entries[0].name, Locations(entries[1..]));
      LocationsRoundTrip(entries[1..]);
      assert [Route(entries[0].name, entries[0].name)] + OwnRoutes(entries[1..]) == OwnRoutes(entries);
    }
  }

  lemma EmptyStartsNothing(lit: string)
    requires lit != ""
    ensures !StartsWith("", lit)
  {
  }

  // The rendered text determines what was rendered: each deployment's upstream with its ports, and for each a location
  // under its name that is proxied to its own upstream.
  lemma RenderRoundTrip(entries: seq<Entry>)
    requires forall i :: 0 <= i < |entries| ==> ValidName(entries[i].name)
    ensures Parse(RenderEntries(entries)) == Config(entries, OwnRoutes(entries))
  {
    hide Header, UpstreamOpen, LocationOpen, ProxyPass, LocationEnd, ReadRoutes, ReadUpstreams;
    PiecesBegin();
    var rest := Locations(entries);
    assert RenderEntries(entries) == Header() + (Upstreams(entries) + rest);
    Prefixed(Header(), Upstreams(entries) + rest);
    if entries != [] {
      assert rest[1] == LocationOpen()[1];
    }
    NoBlock(rest);
    UpstreamsRoundTrip(entries, rest);
    LocationsRoundTrip(entries);
  }
}
