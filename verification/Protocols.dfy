/**
  TCP and UDP routers and services turned into routes, headless Services and EndpointSlices
  (internal/transform/protocol/tcp_udp.go).

  Splitting an address into host and port text and classifying an address as IPv4 or IPv6 are
  library functions, hence parameters (`Net`). A `range` over a Go map visits the keys in an
  arbitrary order, so the loops pick an arbitrary remaining key.
 */
module Protocols {
  import opened Results
  import opened JsonValues
  import opened Ordering
  import opened Names
  import opened Ports
  import opened Text

  datatype IpKind = NotIp | V4 | V6
  datatype Net = Net(split: string -> Option<(string, string)>, ip: string -> IpKind)

  datatype Transport = Tcp | Udp
  datatype AddressType = Fqdn | IPv4 | IPv6

  datatype HostPort = HostPort(host: string, port: int)
  datatype Backend = Backend(hosts: seq<string>, port: int)
  datatype Info = Info(backend: Backend, transport: string)

  datatype Service = Service(name: string, clusterIP: string, port: int, proto: Transport)
  datatype Slice = Slice(name: string, addressType: AddressType, endpoints: seq<seq<string>>, port: int,
                         proto: Transport)
  datatype Route = Route(name: string, entryPoints: seq<string>, rule: string, backend: string, port: int,
                         serversTransport: string)

  // ---------------------------------------------------------------------------------------------
  // One load balancer

  function ServerAddress(server: Object): string {
    if StrField(server, "address") != "" then StrField(server, "address") else StrField(server, "url")
  }

  /** The host and valid port of one server entry, if it has both. */
  function ServerTarget(net: Net, server: Json): (r: Option<HostPort>)
    ensures r.Some? ==> 1 <= r.value.port <= 65535
  {
    if !server.Obj? || ServerAddress(server.m) == "" then None
    else
      match net.split(ServerAddress(server.m))
      case None => None
      case Some((h, p)) =>
        if p == "" || ParsePort(p).None? then None else Some(HostPort(h, ParsePort(p).value))
  }

  /**
    An entry whose address, or whose url if it has no address, is a host and a printed port stands for
    that host and port.
   */
  lemma ServerReadsBack(net: Net, server: Object, host: string, port: nat)
    requires 1 <= port <= 65535
    requires var text := if StrField(server, "address") != "" then StrField(server, "address")
             else StrField(server, "url");
             text != "" && net.split(text) == Some((host, PrintNat(port)))
    ensures ServerTarget(net, Obj(server)) == Some(HostPort(host, port))
  {
    ParsePrintedPort(port);
    PrintNatIsWord(port);
  }

  function LoadBalancerServers(raw: Raw): (r: Option<seq<Json>>)
    ensures r.Some? ==> r.value != []
  {
    match DecodeObject(raw)
    case None => None
    case Some(obj) =>
      if !HasObj(obj, "loadBalancer") || !HasArr(obj["loadBalancer"].m, "servers") then None
      else
        var servers := obj["loadBalancer"].m["servers"].xs;
        if servers == [] then None else Some(servers)
  }

  /** Every server is well formed and they all name one port. */
  predicate OnePort(net: Net, servers: seq<Json>) {
    && (forall i :: 0 <= i < |servers| ==> ServerTarget(net, servers[i]).Some?)
    && (forall i :: 0 <= i < |servers| ==>
      ServerTarget(net, servers[i]).value.port == ServerTarget(net, servers[0]).value.port)
  }

  function Hosts(net: Net, servers: seq<Json>): (hs: seq<string>)
    requires OnePort(net, servers)
    ensures |hs| == |servers|
  {
    seq(|servers|, i requires 0 <= i < |servers| => ServerTarget(net, servers[i]).value.host)
  }

  /** What a service stands for: its hosts in order and their common port, or an error. */
  function BackendOf(net: Net, raw: Raw): (r: Option<Backend>)
    ensures r.Some? ==> r.value.hosts != [] && 1 <= r.value.port <= 65535
  {
    var s := LoadBalancerServers(raw);
    if s.None? || !OnePort(net, s.value) then None
    else Some(Backend(Hosts(net, s.value), ServerTarget(net, s.value[0]).value.port))
  }

  /** What a server entry says, read off its fields: an address, or else a url, that is a host and a valid port. */
  predicate SaysHostPort(net: Net, server: Json, host: string, port: int) {
    && server.Obj?
    && var text := if "address" in server.m && server.m["address"].Str? && server.m["address"].s != "" then
                     server.m["address"].s
                   else if "url" in server.m && server.m["url"].Str? then server.m["url"].s
                   else "";
       && text != "" && net.split(text).Some?
       && var (h, p) := net.split(text).value;
          h == host && p != "" && ParsePort(p) == Some(port)
  }

  /** The document lists at least one server, and they say these hosts, in order, and all the one port. */
  predicate SaysBackend(net: Net, raw: Raw, hosts: seq<string>, port: int) {
    && raw.Doc? && raw.v.Obj? && "loadBalancer" in raw.v.m && raw.v.m["loadBalancer"].Obj?
    && "servers" in raw.v.m["loadBalancer"].m && raw.v.m["loadBalancer"].m["servers"].Arr?
    && var xs := raw.v.m["loadBalancer"].m["servers"].xs;
       && xs != [] && |hosts| == |xs|
       && forall i :: 0 <= i < |xs| ==> SaysHostPort(net, xs[i], hosts[i], port)
  }

  lemma ServerTargetExactly(net: Net, server: Json, host: string, port: int)
    ensures ServerTarget(net, server) == Some(HostPort(host, port)) <==> SaysHostPort(net, server, host, port)
  {
  }

  /** A service stands for a backend exactly if its document says so. */
  lemma BackendExactly(net: Net, raw: Raw, hosts: seq<string>, port: int)
    ensures BackendOf(net, raw) == Some(Backend(hosts, port)) <==> SaysBackend(net, raw, hosts, port)
  {
    if LoadBalancerServers(raw).Some? {
      var xs := LoadBalancerServers(raw).value;
      forall i | 0 <= i < |xs| && i < |hosts|
        ensures ServerTarget(net, xs[i]) == Some(HostPort(hosts[i], port)) <==> SaysHostPort(net, xs[i], hosts[i], port)
      {
        ServerTargetExactly(net, xs[i], hosts[i], port);
      }
      if SaysBackend(net, raw, hosts, port) {
        assert OnePort(net, xs);
        assert Hosts(net, xs) == hosts;
      }
    }
  }

  /** The accumulating loop of extractLBAddressesPort; port 0 means "not seen yet". */
  method ExtractBackend(net: Net, raw: Raw) returns (r: Option<Backend>)
    ensures r == BackendOf(net, raw)
    // read off the document: all its servers, in order, or nothing because no hosts and port are what it says
    ensures r.Some? ==> SaysBackend(net, raw, r.value.hosts, r.value.port)
    ensures r.None? ==> forall hosts, port :: !SaysBackend(net, raw, hosts, port)
  {
    r := CollectServers(net, raw);
    forall hosts, port
      ensures BackendOf(net, raw) == Some(Backend(hosts, port)) <==> SaysBackend(net, raw, hosts, port)
    {
      BackendExactly(net, raw, hosts, port);
    }
  }

  method CollectServers(net: Net, raw: Raw) returns (r: Option<Backend>)
    ensures r == BackendOf(net, raw)
  {
    var s := LoadBalancerServers(raw);
    if s.None? { return None; }
    var servers := s.value;
    var hosts: seq<string>, port := [], 0;
    for i := 0 to |servers|
      invariant |hosts| == i && (port == 0 <==> i == 0)
      invariant forall j :: 0 <= j < i ==> ServerTarget(net, servers[j]) == Some(HostPort(hosts[j], port))
    {
      var t := ServerTarget(net, servers[i]);
      if t.None? { return None; }
      hosts := hosts + [t.value.host];
      if port == 0 {
        port := t.value.port;
      } else if t.value.port != port {
        assert ServerTarget(net, servers[0]).value.port == port;
        return None;
      }
    }
    assert OnePort(net, servers);
    assert hosts == Hosts(net, servers);
    r := Some(Backend(hosts, port));
  }

  function InfoOf(net: Net, raw: Raw): (r: Option<Info>)
    ensures r.Some? <==> BackendOf(net, raw).Some?
    ensures r.Some? ==> r.value.backend == BackendOf(net, raw).value
  {
    if BackendOf(net, raw).None? then None
    else Some(Info(BackendOf(net, raw).value,
                   if DecodeObject(raw).Some? then StrField(DecodeObject(raw).value, "serversTransport") else ""))
  }

  /** The servers transport of a service, read off its document. */
  lemma TransportExactly(net: Net, raw: Raw)
    requires InfoOf(net, raw).Some?
    ensures raw.Doc? && raw.v.Obj?
    ensures InfoOf(net, raw).value.transport ==
            if "serversTransport" in raw.v.m && raw.v.m["serversTransport"].Str? then raw.v.m["serversTransport"].s
              else ""
  {
  }

  predicate AllBackends(net: Net, services: map<string, Raw>) {
    forall n :: n in services ==> BackendOf(net, services[n]).Some?
  }

  ghost predicate IsIndex(net: Net, services: map<string, Raw>, info: map<string, Info>) {
    && info.Keys == services.Keys
    && forall n :: n in info ==> Some(info[n]) == InfoOf(net, services[n])
  }

  method BuildServiceIndex(net: Net, services: map<string, Raw>) returns (r: Option<map<string, Info>>)
    ensures r.Some? <==> AllBackends(net, services)
    ensures r.Some? ==> IsIndex(net, services, r.value)
  {
    var out: map<string, Info> := map[];
    var rest := services.Keys;
    while rest != {}
      invariant rest <= services.Keys && out.Keys == services.Keys - rest
      invariant forall n :: n in out ==> Some(out[n]) == InfoOf(net, services[n])
      decreases rest
    {
      var n :| n in rest;
      var b := ExtractBackend(net, services[n]);
      if b.None? { return None; }
      out := out[n := InfoOf(net, services[n]).value];
      rest := rest - {n};
    }
    r := Some(out);
  }

  // ---------------------------------------------------------------------------------------------
  // Services and EndpointSlices

  /** The length of the leading stretch of hosts that are IP addresses. */
  function IpPrefix(net: Net, hosts: seq<string>): (n: nat)
    ensures n <= |hosts|
    ensures forall i :: 0 <= i < n ==> net.ip(hosts[i]) != NotIp
    ensures n < |hosts| ==> net.ip(hosts[n]) == NotIp
  {
    if hosts == [] || net.ip(hosts[0]) == NotIp then 0 else 1 + IpPrefix(net, hosts[1..])
  }

  predicate Uniform(net: Net, hosts: seq<string>, kind: IpKind) {
    forall i :: 0 <= i < |hosts| ==> net.ip(hosts[i]) == kind
  }

  /** Mixed families before the first host name are an error; any host name makes the slice FQDN. */
  function AddressTypeOf(net: Net, hosts: seq<string>): Option<AddressType> {
    var ips := hosts[..IpPrefix(net, hosts)];
    if !Uniform(net, ips, V4) && !Uniform(net, ips, V6) then None
    else if hosts == [] || |ips| < |hosts| then Some(Fqdn)
    else if Uniform(net, ips, V4) then Some(IPv4)
    else Some(IPv6)
  }

  method ChooseAddressType(net: Net, hosts: seq<string>) returns (r: Option<AddressType>)
    ensures r == AddressTypeOf(net, hosts)
  {
    if hosts == [] { return Some(Fqdn); }
    var seen4, seen6 := false, false;
    ghost var n := IpPrefix(net, hosts);
    for i := 0 to |hosts|
      invariant i <= n
      invariant seen4 <==> exists j :: 0 <= j < i && net.ip(hosts[j]) == V4
      invariant seen6 <==> exists j :: 0 <= j < i && net.ip(hosts[j]) == V6
      invariant !(seen4 && seen6)
    {
      var k := net.ip(hosts[i]);
      if k == NotIp {
        assert n == i;
        assert seen4 ==> Uniform(net, hosts[..n], V4);
        assert !seen4 ==> Uniform(net, hosts[..n], V6);
        return Some(Fqdn);
      }
      assert i < n;
      ghost var w4, w6 := seen4, seen6;
      if k == V4 { seen4 := true; } else { seen6 := true; }
      if seen4 && seen6 {
        var other :| 0 <= other < i && net.ip(hosts[other]) == if k == V4 then V6 else V4;
        assert hosts[..n][other] == hosts[other] && hosts[..n][i] == hosts[i];
        return None;
      }
    }
    assert hosts[..n] == hosts;
    if seen4 {
      assert Uniform(net, hosts, V4);
      return Some(IPv4);
    }
    assert net.ip(hosts[0]) == V6;
    assert Uniform(net, hosts, V6);
    return Some(IPv6);
  }

  function KubeName(san: Namer, name: string, port: int): string
    requires 0 <= port
  {
    san(PortedName(name, port))
  }

  function HeadlessService(name: string, port: int, proto: Transport): Service {
    Service(name, "None", port, proto)
  }

  function SliceFor(net: Net, base: string, b: Backend, proto: Transport): Option<Slice> {
    match AddressTypeOf(net, b.hosts)
    case None => None
    case Some(at) => Some(Slice(base + "-eps", at, seq(|b.hosts|, i requires 0 <= i < |b.hosts| => [b.hosts[i]]),
      b.port, proto))
  }

  method BuildEndpointSlice(net: Net, base: string, b: Backend, proto: Transport) returns (r: Option<Slice>)
    ensures r == SliceFor(net, base, b, proto)
  {
    var at := ChooseAddressType(net, b.hosts);
    if at.None? { return None; }
    var eps: seq<seq<string>> := [];
    for i := 0 to |b.hosts|
      invariant |eps| == i && forall j :: 0 <= j < i ==> eps[j] == [b.hosts[j]]
    {
      eps := eps + [[b.hosts[i]]];
    }
    r := Some(Slice(base + "-eps", at.value, eps, b.port, proto));
    assert eps == seq(|b.hosts|, i requires 0 <= i < |b.hosts| => [b.hosts[i]]);
  }

  datatype Artifacts = Artifacts(nameMap: map<string, string>, svcs: seq<Service>, slices: seq<Slice>)

  predicate ValidIndex(info: map<string, Info>) {
    forall n :: n in info ==> 1 <= info[n].backend.port <= 65535
  }

  /** The Service and the slice generated for one service name. */
  predicate GeneratedFor(san: Namer, net: Net, name: string, b: Backend, proto: Transport, svc: Service, slice: Slice)
    requires 0 <= b.port
  {
    var kube := KubeName(san, name, b.port);
    svc == HeadlessService(kube, b.port, proto) && Some(slice) == SliceFor(net, kube, b, proto)
  }

  /** The name map covers the first n keys, and their Services and slices have been generated. */
  ghost predicate Generated(san: Namer, net: Net, keys: seq<string>, info: map<string, Info>, proto: Transport,
                            a: Artifacts, n: nat)
    requires ValidIndex(info) && forall k :: k in keys ==> k in info
  {
    && n <= |keys| && |a.svcs| == |a.slices| == n
    && (forall k :: k in a.nameMap ==> k in info && a.nameMap[k] == KubeName(san, k, info[k].backend.port))
    && (forall i :: 0 <= i < n ==> keys[i] in a.nameMap)
    && forall i :: 0 <= i < n ==> GeneratedFor(san, net, keys[i], info[keys[i]].backend, proto, a.svcs[i], a.slices[i])
  }

  lemma GeneratedStep(san: Namer, net: Net, keys: seq<string>, info: map<string, Info>, proto: Transport, a: Artifacts,
                      n: nat, slice: Slice)
    requires ValidIndex(info) && forall k :: k in keys ==> k in info
    requires Generated(san, net, keys, info, proto, a, n) && n < |keys|
    requires Some(slice) == SliceFor(net, KubeName(san, keys[n], info[keys[n]].backend.port), info[keys[n]].backend,
             proto)
    ensures var b := info[keys[n]].backend;
            var kube := KubeName(san, keys[n], b.port);
            Generated(san, net, keys, info, proto,
                      Artifacts(a.nameMap[keys[n] := kube], a.svcs + [HeadlessService(kube, b.port, proto)],
                        a.slices + [slice]), n + 1)
  {
    var b := info[keys[n]].backend;
    assert GeneratedFor(san, net, keys[n], b, proto, HeadlessService(KubeName(san, keys[n], b.port), b.port, proto),
      slice);
  }

  method BuildKubeArtifacts(san: Namer, net: Net, keys: seq<string>, info: map<string, Info>, proto: Transport)
    returns (r: Option<Artifacts>)
    requires ValidIndex(info) && forall k :: k in keys ==> k in info
    ensures r.Some? ==> Generated(san, net, keys, info, proto, r.value, |keys|)
    ensures r.Some? <==> forall i :: 0 <= i < |keys| ==> AddressTypeOf(net, info[keys[i]].backend.hosts).Some?
  {
    var a := Artifacts(map[], [], []);
    for i := 0 to |keys|
      invariant Generated(san, net, keys, info, proto, a, i)
      invariant forall j :: 0 <= j < i ==> AddressTypeOf(net, info[keys[j]].backend.hosts).Some?
    {
      var b := info[keys[i]].backend;
      var kube := KubeName(san, keys[i], b.port);
      var s := BuildEndpointSlice(net, kube, b, proto);
      if s.None? { return None; }
      GeneratedStep(san, net, keys, info, proto, a, i, s.value);
      a := Artifacts(a.nameMap[keys[i] := kube], a.svcs + [HeadlessService(kube, b.port, proto)], a.slices + [s.value]);
    }
    r := Some(a);
  }

  // ---------------------------------------------------------------------------------------------
  // Routes

  function ServiceRef(raw: Raw): string {
    match DecodeObject(raw)
    case None => ""
    case Some(r) => StrField(r, "service")
  }

  function EntryPoints(r: Object): seq<string> {
    if HasArr(r, "entryPoints") then Strings(r["entryPoints"].xs) else []
  }

  /** A UDP router must name a generated service. */
  function UdpRoute(san: Namer, name: string, raw: Raw, nameMap: map<string, string>): Option<Route> {
    match DecodeObject(raw)
    case None => None
    case Some(r) =>
      var svc := StrField(r, "service");
      if svc == "" || svc !in nameMap || nameMap[svc] == "" || DerivePort(nameMap[svc]).None? then None
      else Some(Route(san(name), EntryPoints(r), "", nameMap[svc], DerivePort(nameMap[svc]).value, ""))
  }

  /** A TCP router naming an undefined service falls back on that service's own sanitised name. */
  function TcpRoute(san: Namer, name: string, raw: Raw, nameMap: map<string, string>,
                    info: map<string, Info>): Option<Route>
  {
    match DecodeObject(raw)
    case None => None
    case Some(r) =>
      var svc := StrField(r, "service");
      if StrField(r, "rule") == "" || svc == "" then None
      else
        var kube := if svc in nameMap && nameMap[svc] != "" then nameMap[svc] else san(svc);
        if DerivePort(kube).None? then None
        else
          var st := if svc in info && info[svc].transport != "" then san(info[svc].transport) else "";
          Some(Route(san(name), EntryPoints(r), StrField(r, "rule"), kube, DerivePort(kube).value, st))
  }

  function RouteOf(san: Namer, proto: Transport, name: string, raw: Raw, nameMap: map<string, string>,
                   info: map<string, Info>): Option<Route>
  {
    if proto.Udp? then UdpRoute(san, name, raw, nameMap) else TcpRoute(san, name, raw, nameMap, info)
  }

  /**
    A router has a route exactly if it names a service, which for UDP must be defined, and the port can
    be read back.
   */
  lemma RouteExists(san: Namer, proto: Transport, name: string, raw: Raw, nameMap: map<string, string>,
                    info: map<string, Info>)
    ensures RouteOf(san, proto, name, raw, nameMap, info).Some? <==>
              && raw.Doc? && raw.v.Obj? && "service" in raw.v.m && raw.v.m["service"].Str? && raw.v.m["service"].s != ""
              && var svc := raw.v.m["service"].s;
                 if proto.Udp? then svc in nameMap && nameMap[svc] != "" && DerivePort(nameMap[svc]).Some?
                 else
                   && "rule" in raw.v.m && raw.v.m["rule"].Str? && raw.v.m["rule"].s != ""
                   && DerivePort(if svc in nameMap && nameMap[svc] != "" then nameMap[svc] else san(svc)).Some?
  {
  }

  /** What a UDP route carries over from its router, and where it leads, read off the document. */
  lemma UdpRouteContents(san: Namer, name: string, raw: Raw, nameMap: map<string, string>, info: map<string, Info>)
    requires RouteOf(san, Udp, name, raw, nameMap, info).Some?
    ensures raw.Doc? && raw.v.Obj? && "service" in raw.v.m && raw.v.m["service"].Str?
    ensures var r, m, svc := RouteOf(san, Udp, name, raw, nameMap, info).value, raw.v.m, raw.v.m["service"].s;
            && r.name == san(name) && r.rule == "" && r.serversTransport == ""
            && r.entryPoints == (if "entryPoints" in m && m["entryPoints"].Arr? then Strings(m["entryPoints"].xs)
              else [])
            && svc in nameMap && r.backend == nameMap[svc] && DerivePort(nameMap[svc]) == Some(r.port)
  {
  }

  /** The same for TCP; a router naming an undefined service leads to that name itself. */
  lemma TcpRouteContents(san: Namer, name: string, raw: Raw, nameMap: map<string, string>, info: map<string, Info>)
    requires RouteOf(san, Tcp, name, raw, nameMap, info).Some?
    ensures raw.Doc? && raw.v.Obj? && "service" in raw.v.m && raw.v.m["service"].Str?
    ensures "rule" in raw.v.m && raw.v.m["rule"].Str?
    ensures var r, m, svc := RouteOf(san, Tcp, name, raw, nameMap, info).value, raw.v.m, raw.v.m["service"].s;
            && r.name == san(name) && r.rule == m["rule"].s
            && r.entryPoints == (if "entryPoints" in m && m["entryPoints"].Arr? then Strings(m["entryPoints"].xs)
              else [])
            && r.backend == (if svc in nameMap && nameMap[svc] != "" then nameMap[svc] else san(svc))
            && DerivePort(r.backend) == Some(r.port)
            && r.serversTransport ==
               if svc in info && info[svc].transport != "" then san(info[svc].transport) else ""
  {
  }

  /** One route per name, in the order `order` in which the map was visited; none at all if one is missing. */
  method CollectRoutes(names: set<string>, make: string -> Option<Route>)
    returns (r: Option<seq<Route>>, order: seq<string>)
    ensures r.Some? <==> forall n :: n in names ==> make(n).Some?
    ensures r.Some? ==> Enumerates(order, names) && |r.value| == |order|
    ensures r.Some? ==> forall i :: 0 <= i < |order| ==> Some(r.value[i]) == make(order[i])
  {
    var routes: seq<Route> := [];
    order := [];
    var rest := names;
    while rest != {}
      invariant rest <= names && Enumerates(order, names - rest)
      invariant |routes| == |order| && forall i :: 0 <= i < |order| ==> Some(routes[i]) == make(order[i])
      decreases rest
    {
      var n :| n in rest;
      var u := make(n);
      if u.None? { return None, order; }
      routes := routes + [u.value];
      order := order + [n];
      rest := rest - {n};
    }
    assert names - rest == names;
    forall n | n in names ensures make(n).Some? {
      var i :| 0 <= i < |order| && order[i] == n;
    }
    r := Some(routes);
  }

  method BuildRoutes(san: Namer, proto: Transport, routers: map<string, Raw>, nameMap: map<string, string>,
                     info: map<string, Info>)
    returns (r: Option<seq<Route>>, order: seq<string>)
    ensures r.Some? <==> forall n :: n in routers ==> RouteOf(san, proto, n, routers[n], nameMap, info).Some?
    ensures r.Some? ==> Enumerates(order, routers.Keys) && |r.value| == |order|
    ensures r.Some? ==> forall i :: 0 <= i < |order| ==>
              Some(r.value[i]) == RouteOf(san, proto, order[i], routers[order[i]], nameMap, info)
  {
    r, order := CollectRoutes(routers.Keys, n => if n in routers then RouteOf(san, proto, n, routers[n], nameMap, info)
      else None);
  }

  // ---------------------------------------------------------------------------------------------
  // The transforms

  /** `order` is the visiting order behind `routes`, `names` the service behind each Service and slice. */
  datatype Output = Output(routes: seq<Route>, order: seq<string>, names: seq<string>, svcs: seq<Service>,
                           slices: seq<Slice>)

  /** The service index and the generated names, stated directly. */
  function IndexMap(net: Net, services: map<string, Raw>): map<string, Info> {
    map n | n in services && InfoOf(net, services[n]).Some? :: InfoOf(net, services[n]).value
  }

  predicate FamiliesOk(net: Net, info: map<string, Info>) {
    forall n :: n in info ==> AddressTypeOf(net, info[n].backend.hosts).Some?
  }

  function NameMap(san: Namer, info: map<string, Info>): map<string, string> {
    map n | n in info && 0 <= info[n].backend.port :: KubeName(san, n, info[n].backend.port)
  }

  /** Every service has one port and one address family, and every router yields a route. */
  ghost predicate Transformable(san: Namer, net: Net, proto: Transport, routers: map<string, Raw>,
                                services: map<string, Raw>)
  {
    && AllBackends(net, services)
    && FamiliesOk(net, IndexMap(net, services))
    && forall n :: n in routers ==> IntendedRoute(san, net, proto, n, routers[n], services).Some?
  }

  function IntendedRoute(san: Namer, net: Net, proto: Transport, name: string, raw: Raw,
                         services: map<string, Raw>): Option<Route>
  {
    var info := IndexMap(net, services);
    RouteOf(san, proto, name, raw, NameMap(san, info), info)
  }

  /** The route is served by a headless Service of its own port and by one slice of that port. */
  predicate Backed(route: Route, b: Backend, svc: Service, slice: Slice, proto: Transport) {
    && svc == Service(route.backend, "None", route.port, proto)
    && slice.name == route.backend + "-eps" && slice.port == route.port == b.port && slice.proto == proto
    && |slice.endpoints| == |b.hosts| && forall i :: 0 <= i < |b.hosts| ==> slice.endpoints[i] == [b.hosts[i]]
  }

  /** The port read back from the generated name is the right one or none at all. */
  predicate PortKept(san: Namer, name: string, port: int)
    requires 0 <= port
  {
    var p := DerivePort(KubeName(san, name, port));
    KubeName(san, name, port) != "" && (p.None? || p == Some(port))
  }

  predicate PortsKept(san: Namer, net: Net, services: map<string, Raw>) {
    forall n :: n in services && BackendOf(net, services[n]).Some? ==>
      PortKept(san, n, BackendOf(net, services[n]).value.port)
  }

  /** A route to a defined service whose generated name keeps the port is backed by what was generated. */
  lemma RouteIsBacked(san: Namer, net: Net, proto: Transport, name: string, raw: Raw, nameMap: map<string, string>,
                      info: map<string, Info>, svc: Service, slice: Slice)
    requires ServiceRef(raw) in info && ServiceRef(raw) in nameMap
    requires var b := info[ServiceRef(raw)].backend;
             && 0 <= b.port && nameMap[ServiceRef(raw)] == KubeName(san, ServiceRef(raw), b.port)
             && PortKept(san, ServiceRef(raw), b.port)
             && GeneratedFor(san, net, ServiceRef(raw), b, proto, svc, slice)
    requires RouteOf(san, proto, name, raw, nameMap, info).Some?
    ensures Backed(RouteOf(san, proto, name, raw, nameMap, info).value, info[ServiceRef(raw)].backend, svc, slice,
            proto)
  {
    if proto.Udp? { UdpRouteContents(san, name, raw, nameMap, info); }
      else { TcpRouteContents(san, name, raw, nameMap, info); }
  }

  /**
    Wherever a route leads, be it by falling back on an undefined name: if a generated Service has that
    name, it has the route's port.
   */
  lemma NoRouteMissesItsPort(san: Namer, proto: Transport, name: string, raw: Raw, nameMap: map<string, string>,
                             info: map<string, Info>, n: string, port: nat)
    requires RouteOf(san, proto, name, raw, nameMap, info).Some? && PortKept(san, n, port)
    requires RouteOf(san, proto, name, raw, nameMap, info).value.backend == KubeName(san, n, port)
    ensures RouteOf(san, proto, name, raw, nameMap, info).value.port == port
  {
    if proto.Udp? { UdpRouteContents(san, name, raw, nameMap, info); }
      else { TcpRouteContents(san, name, raw, nameMap, info); }
  }

  ghost predicate PortsMatch(o: Output) {
    forall i, j :: 0 <= i < |o.routes| && 0 <= j < |o.svcs| && o.routes[i].backend == o.svcs[j].name ==>
      o.routes[i].port == o.svcs[j].port
  }

  /** The referenced service of the i-th route, and the claim about that route. */
  ghost predicate RouteServed(net: Net, services: map<string, Raw>, routers: map<string, Raw>, o: Output,
                              proto: Transport, i: nat)
    requires i < |o.order| == |o.routes| && o.order[i] in routers && |o.svcs| == |o.slices|
  {
    var svc := ServiceRef(routers[o.order[i]]);
    svc in services && BackendOf(net, services[svc]).Some? ==>
      exists j :: 0 <= j < |o.svcs| && Backed(o.routes[i], BackendOf(net, services[svc]).value, o.svcs[j], o.slices[j],
        proto)
  }

  ghost predicate ServicesGenerated(san: Namer, net: Net, proto: Transport, info: map<string, Info>, o: Output)
    requires ValidIndex(info)
  {
    && Sorted(o.names) && Enumerates(o.names, info.Keys)
    && |o.svcs| == |o.slices| == |o.names|
    && forall i :: 0 <= i < |o.names| ==>
         GeneratedFor(san, net, o.names[i], info[o.names[i]].backend, proto, o.svcs[i], o.slices[i])
  }

  lemma NameMapBuilt(san: Namer, net: Net, proto: Transport, keys: seq<string>, info: map<string, Info>, a: Artifacts)
    requires ValidIndex(info) && Enumerates(keys, info.Keys)
    requires Generated(san, net, keys, info, proto, a, |keys|)
    ensures a.nameMap == NameMap(san, info)
  {
    var want := NameMap(san, info);
    assert a.nameMap.Keys == want.Keys by {
      forall n | n in info ensures n in a.nameMap {
        var i :| 0 <= i < |keys| && keys[i] == n;
      }
    }
    forall n | n in want ensures a.nameMap[n] == want[n] {}
  }

  /** TransformTCP and TransformUDP: index, artifacts, routes, any of which may fail. */
  method Transform(san: Namer, net: Net, proto: Transport, routers: map<string, Raw>, services: map<string, Raw>)
    returns (r: Option<Output>)
    // it fails for a malformed service, mixed address families or a router without a route, and only then
    ensures r.Some? <==> Transformable(san, net, proto, routers, services)
    // one Service and one slice per service, in name order
    ensures r.Some? ==>
              ValidIndex(IndexMap(net, services)) && ServicesGenerated(san, net, proto, IndexMap(net, services),
                r.value)
    // the slice of each service has one endpoint per configured server, in order, under the port that they say
    ensures r.Some? ==> forall j :: 0 <= j < |r.value.names| ==>
              && r.value.names[j] in services
              && FromDocument(net, services[r.value.names[j]], r.value.svcs[j], r.value.slices[j])
    // one route per router
    ensures r.Some? ==> Enumerates(r.value.order, routers.Keys) && |r.value.routes| == |r.value.order|
    ensures r.Some? ==> forall i :: 0 <= i < |r.value.order| ==>
              Some(r.value.routes[i]) == IntendedRoute(san, net, proto, r.value.order[i], routers[r.value.order[i]],
                services)
    // a UDP router always names a defined service
    ensures r.Some? && proto.Udp? ==> forall n :: n in routers ==> ServiceRef(routers[n]) in services
    // each route to a defined service is backed by the Service and the slice generated for it
    ensures r.Some? && PortsKept(san, net, services) ==>
              forall i :: 0 <= i < |r.value.order| ==> RouteServed(net, services, routers, r.value, proto, i)
    // and no route at all reaches a generated Service under another port
    ensures r.Some? && PortsKept(san, net, services) ==> PortsMatch(r.value)
  {
    var built, keys := BuildAllArtifacts(san, net, proto, services);
    if built.None? { return None; }
    var a, info := built.value, IndexMap(net, services);
    var routes, order := BuildRoutes(san, proto, routers, a.nameMap, info);
    if routes.None? { return None; }
    r := Some(Output(routes.value, order, keys, a.svcs, a.slices));
    AllRoutesServed(san, net, services, routers, info, keys, a, r.value, proto);
    AllFromDocument(san, net, services, info, keys, a, proto);
    if PortsKept(san, net, services) { AllPortsMatch(san, net, services, routers, info, keys, a, r.value, proto); }
  }

  /** A headless Service and a slice with one endpoint for each server that the document lists, in order. */
  ghost predicate FromDocument(net: Net, raw: Raw, svc: Service, slice: Slice) {
    && svc.clusterIP == "None" && svc.port == slice.port && slice.name == svc.name + "-eps"
    && (forall i :: 0 <= i < |slice.endpoints| ==> |slice.endpoints[i]| == 1)
    && SaysBackend(net, raw, Addresses(slice), slice.port)
  }

  function Addresses(slice: Slice): (hosts: seq<string>)
    requires forall i :: 0 <= i < |slice.endpoints| ==> |slice.endpoints[i]| == 1
    ensures |hosts| == |slice.endpoints| && forall i :: 0 <= i < |hosts| ==> [hosts[i]] == slice.endpoints[i]
  {
    seq(|slice.endpoints|, i requires 0 <= i < |slice.endpoints| => slice.endpoints[i][0])
  }

  lemma GeneratedFromDocument(san: Namer, net: Net, proto: Transport, name: string, raw: Raw, b: Backend, svc: Service,
                              slice: Slice)
    requires BackendOf(net, raw) == Some(b) && GeneratedFor(san, net, name, b, proto, svc, slice)
    ensures FromDocument(net, raw, svc, slice)
  {
    assert Addresses(slice) == b.hosts;
    BackendExactly(net, raw, b.hosts, b.port);
  }

  lemma AllFromDocument(san: Namer, net: Net, services: map<string, Raw>, info: map<string, Info>, keys: seq<string>,
                        a: Artifacts, proto: Transport)
    requires IsIndex(net, services, info) && ValidIndex(info) && Enumerates(keys, info.Keys)
    requires Generated(san, net, keys, info, proto, a, |keys|)
    ensures forall j :: 0 <= j < |keys| ==>
              keys[j] in services && FromDocument(net, services[keys[j]], a.svcs[j], a.slices[j])
  {
    forall j | 0 <= j < |keys|
      ensures keys[j] in services && FromDocument(net, services[keys[j]], a.svcs[j], a.slices[j])
    {
      assert Some(info[keys[j]]) == InfoOf(net, services[keys[j]]);
      GeneratedFromDocument(san, net, proto, keys[j], services[keys[j]], info[keys[j]].backend, a.svcs[j], a.slices[j]);
    }
  }

  lemma AllPortsMatch(san: Namer, net: Net, services: map<string, Raw>, routers: map<string, Raw>,
                      info: map<string, Info>,
                      keys: seq<string>, a: Artifacts, o: Output, proto: Transport)
    requires IsIndex(net, services, info) && ValidIndex(info) && Enumerates(keys, info.Keys)
             && PortsKept(san, net, services)
    requires Generated(san, net, keys, info, proto, a, |keys|) && o.svcs == a.svcs
    requires Enumerates(o.order, routers.Keys) && |o.order| == |o.routes|
    requires forall i :: 0 <= i < |o.order| ==>
               Some(o.routes[i]) == RouteOf(san, proto, o.order[i], routers[o.order[i]], a.nameMap, info)
    ensures PortsMatch(o)
  {
    forall i, j | 0 <= i < |o.routes| && 0 <= j < |o.svcs| && o.routes[i].backend == o.svcs[j].name
      ensures o.routes[i].port == o.svcs[j].port
    {
      var n := keys[j];
      assert Some(info[n]) == InfoOf(net, services[n]);
      assert GeneratedFor(san, net, n, info[n].backend, proto, a.svcs[j], a.slices[j]);
      NoRouteMissesItsPort(san, proto, o.order[i], routers[o.order[i]], a.nameMap, info, n, info[n].backend.port);
    }
  }

  /** The first two stages: the service index, then names, Services and slices in name order. */
  method BuildAllArtifacts(san: Namer, net: Net, proto: Transport, services: map<string, Raw>)
    returns (r: Option<Artifacts>, keys: seq<string>)
    ensures var info := IndexMap(net, services);
            && (r.Some? <==> AllBackends(net, services) && FamiliesOk(net, info))
            && (r.Some? ==>
              IsIndex(net, services, info) && ValidIndex(info) && Sorted(keys) && Enumerates(keys, info.Keys))
            && (r.Some? ==>
              Generated(san, net, keys, info, proto, r.value, |keys|) && r.value.nameMap == NameMap(san, info))
  {
    keys := [];
    var index := BuildServiceIndex(net, services);
    if index.None? { return None, keys; }
    var info := index.value;
    IndexIsValid(net, services, info);
    assert info == IndexMap(net, services);
    keys := SortKeys(info.Keys);
    r := BuildKubeArtifacts(san, net, keys, info, proto);
    if r.Some? {
      FamiliesOfAll(net, info, keys);
      NameMapBuilt(san, net, proto, keys, info, r.value);
    }
  }

  lemma FamiliesOfAll(net: Net, info: map<string, Info>, keys: seq<string>)
    requires Enumerates(keys, info.Keys)
    requires forall i :: 0 <= i < |keys| ==> AddressTypeOf(net, info[keys[i]].backend.hosts).Some?
    ensures FamiliesOk(net, info)
  {
    forall n | n in info ensures AddressTypeOf(net, info[n].backend.hosts).Some? {
      var i :| 0 <= i < |keys| && keys[i] == n;
    }
  }

  lemma AllRoutesServed(san: Namer, net: Net, services: map<string, Raw>, routers: map<string, Raw>,
                        info: map<string, Info>,
                        keys: seq<string>, a: Artifacts, o: Output, proto: Transport)
    requires IsIndex(net, services, info) && ValidIndex(info) && Enumerates(keys, info.Keys)
    requires Generated(san, net, keys, info, proto, a, |keys|)
    requires o.svcs == a.svcs && o.slices == a.slices
    requires Enumerates(o.order, routers.Keys) && |o.order| == |o.routes|
    requires forall i :: 0 <= i < |o.order| ==>
               Some(o.routes[i]) == RouteOf(san, proto, o.order[i], routers[o.order[i]], a.nameMap, info)
    ensures proto.Udp? ==> forall n :: n in routers ==> ServiceRef(routers[n]) in services
    ensures PortsKept(san, net, services) ==> forall i :: 0 <= i < |o.order| ==>
              RouteServed(net, services, routers, o, proto, i)
  {
    forall n | proto.Udp? && n in routers ensures ServiceRef(routers[n]) in services {
      var i :| 0 <= i < |o.order| && o.order[i] == n;
      assert RouteOf(san, proto, n, routers[n], a.nameMap, info).Some?;
    }
    if PortsKept(san, net, services) {
      forall n | n in info
        ensures PortKept(san, n, info[n].backend.port)
      {
        assert Some(info[n]) == InfoOf(net, services[n]);
      }
      forall i | 0 <= i < |o.order| ensures RouteServed(net, services, routers, o, proto, i) {
        RouteIsServed(san, net, services, routers, info, keys, a, o, proto, i);
      }
    }
  }

  lemma IndexIsValid(net: Net, services: map<string, Raw>, info: map<string, Info>)
    requires IsIndex(net, services, info)
    ensures ValidIndex(info)
  {
    forall n | n in info
      ensures 1 <= info[n].backend.port <= 65535
    {
      assert Some(info[n]) == InfoOf(net, services[n]);
    }
  }

  lemma RouteIsServed(san: Namer, net: Net, services: map<string, Raw>, routers: map<string, Raw>,
                      info: map<string, Info>,
                      keys: seq<string>, a: Artifacts, o: Output, proto: Transport, i: nat)
    requires IsIndex(net, services, info)
    requires ValidIndex(info) && Enumerates(keys, info.Keys)
    requires Generated(san, net, keys, info, proto, a, |keys|)
    requires o.svcs == a.svcs && o.slices == a.slices
    requires i < |o.order| == |o.routes| && o.order[i] in routers
    requires Some(o.routes[i]) == RouteOf(san, proto, o.order[i], routers[o.order[i]], a.nameMap, info)
    requires forall n :: n in info ==> PortKept(san, n, info[n].backend.port)
    ensures RouteServed(net, services, routers, o, proto, i)
  {
    var svc := ServiceRef(routers[o.order[i]]);
    if svc in services {
      assert Some(info[svc]) == InfoOf(net, services[svc]);
      var j :| 0 <= j < |keys| && keys[j] == svc;
      RouteIsBacked(san, net, proto, o.order[i], routers[o.order[i]], a.nameMap, info, a.svcs[j], a.slices[j]);
    }
  }

  /** With the real sanitiser the port is kept whenever the generated name is not truncated. */
  lemma UntruncatedKeepsPort(cd: Codec, san: Namer, name: string, port: nat)
    requires san(PortedName(name, port)) == Sanitize(cd, PortedName(name, port))
    requires 1 <= port <= 65535 && Untruncated(cd, PortedName(name, port))
    ensures PortKept(san, name, port)
  {
    SanitizeShape(cd, PortedName(name, port));
    PortRoundTrip(cd, name, port);
  }

  predicate AllUntruncated(cd: Codec, net: Net, services: map<string, Raw>) {
    forall n :: n in services && BackendOf(net, services[n]).Some? ==>
      Untruncated(cd, PortedName(n, BackendOf(net, services[n]).value.port))
  }

  /** The transform as the controller calls it, over the real sanitiser. */
  method TransformProtocol(cd: Codec, net: Net, proto: Transport, routers: map<string, Raw>, services: map<string, Raw>)
    returns (r: Option<Output>)
    ensures r.Some? <==> Transformable(n => Sanitize(cd, n), net, proto, routers, services)
    ensures r.Some? ==>
              Enumerates(r.value.order, routers.Keys) && |r.value.routes| == |r.value.order|
                && |r.value.svcs| == |r.value.slices|
    ensures r.Some? ==> |r.value.names| == |r.value.svcs| && forall j :: 0 <= j < |r.value.names| ==>
              && r.value.names[j] in services
              && FromDocument(net, services[r.value.names[j]], r.value.svcs[j], r.value.slices[j])
    ensures r.Some? && proto.Udp? ==> forall n :: n in routers ==> ServiceRef(routers[n]) in services
    ensures r.Some? && AllUntruncated(cd, net, services) ==>
              && (forall i :: 0 <= i < |r.value.order| ==> RouteServed(net, services, routers, r.value, proto, i))
              && PortsMatch(r.value)
  {
    var san: Namer := n => Sanitize(cd, n);
    r := Transform(san, net, proto, routers, services);
    if r.Some? && AllUntruncated(cd, net, services) {
      AllPortsKept(cd, san, net, services);
    }
  }

  lemma AllPortsKept(cd: Codec, san: Namer, net: Net, services: map<string, Raw>)
    requires forall s :: san(s) == Sanitize(cd, s)
    requires AllUntruncated(cd, net, services)
    ensures PortsKept(san, net, services)
  {
    forall n | n in services && BackendOf(net, services[n]).Some?
      ensures PortKept(san, n, BackendOf(net, services[n]).value.port)
    {
      UntruncatedKeepsPort(cd, san, n, BackendOf(net, services[n]).value.port);
    }
  }
}
