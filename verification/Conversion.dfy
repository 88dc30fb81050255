/**
  HTTP services: load balancers over in-cluster URLs become weighted references to Kubernetes Services
  (internal/transform/protocol/http_conversion.go).

  Parsing a URL is a library function, hence a parameter. The theorems about short names need that the
  text written for each short name at hand reads back (`ReadsBack`); `LabelsReadBack` and
  `ReadsBackExactly` say when it does. The controller's configuration may be absent; that behaves as an empty one.
 */
module Conversion {
  import opened Results
  import opened JsonValues
  import opened Ports
  import opened Text

  datatype Url = Url(scheme: string, host: string, port: string, path: string, query: string)

  type Parser = string -> Option<Url>

  datatype Target = Target(name: string, namespace: string, port: int, scheme: string)

  /** `envUrl` is the load balancer URL derived from the environment, or "". */
  datatype Config = Config(namespace: string, gatewayName: string, gatewayPort: int, envUrl: string)

  predicate NoDot(s: string) { forall i :: 0 <= i < |s| ==> s[i] != '.' }

  function PortSuffix(port: string): string { if port == "" then "" else ":" + port }

  /** The text written for a short name. */
  function FqdnText(u: Url, ns: string): string {
    u.scheme + "://" + u.host + "." + ns + ".svc" + PortSuffix(u.port)
  }

  function Dotted(a: string, b: string): string { a + "." + b }

  function FqdnUrl(u: Url, ns: string): Url {
    Url(u.scheme, Dotted(u.host, Dotted(ns, "svc")), u.port, "", "")
  }

  // ---------------------------------------------------------------------------------------------
  // Host names

  function FirstDot(s: string): (i: nat)
    ensures i <= |s| && NoDot(s[..i]) && (i < |s| ==> s[i] == '.')
  {
    if s == "" || s[0] == '.' then 0 else 1 + FirstDot(s[1..])
  }

  function Split(s: string): (parts: seq<string>)
    ensures parts != []
    decreases |s|
  {
    var i := FirstDot(s);
    if i == |s| then [s] else [s[..i]] + Split(s[i + 1..])
  }

  lemma {:induction false} FirstDotAt(a: string, rest: string)
    requires NoDot(a) && (rest == "" || rest[0] == '.')
    ensures FirstDot(a + rest) == |a|
  {
    if a == "" {
      assert a + rest == rest;
    } else {
      assert (a + rest)[1..] == a[1..] + rest;
      FirstDotAt(a[1..], rest);
    }
  }

  lemma SplitDotted(a: string, b: string)
    requires NoDot(a)
    ensures Split(Dotted(a, b)) == [a] + Split(b)
  {
    var s := a + "." + b;
    assert s == a + ("." + b);
    FirstDotAt(a, "." + b);
    assert s[..|a|] == a && s[|a| + 1..] == b;
  }

  lemma SplitPlain(a: string)
    requires NoDot(a)
    ensures Split(a) == [a]
  {
    FirstDotAt(a, "");
    assert a + "" == a;
  }

  predicate HasSuffix(s: string, sub: string) {
    |sub| <= |s| && s[|s| - |sub|..] == sub
  }

  // ---------------------------------------------------------------------------------------------
  // One URL

  function DerivePort(u: Url): int {
    var v := ParseInt(u.port, 0x8000_0000_0000_0000);
    if u.port != "" && v.Some? && v.value > 0 then v.value
    else if u.scheme == "https" then 443 else 80
  }

  /** A printed port is the port, and without one it is 443 for https and 80 for anything else. */
  lemma UrlPorts(u: Url, port: nat)
    ensures u.port == PrintNat(port) && 1 <= port < 0x8000_0000_0000_0000 ==> DerivePort(u) == port
    ensures u.port == "" && u.scheme == "https" ==> DerivePort(u) == 443
    ensures u.port == "" && u.scheme == "http" ==> DerivePort(u) == 80
  {
    PrintParse(port);
    PrintNatIsWord(port);
    assert IsDigit(PrintNat(port)[0]);
  }

  predicate ValidServiceUrl(u: Url) {
    && (u.scheme == "http" || u.scheme == "https")
    && (u.path == "" || u.path == "/") && u.query == ""
    && u.host != "" && (Contains(u.host, ".svc.") || HasSuffix(u.host, ".svc"))
  }

  function ParseServiceUrl(parse: Parser, text: string): Option<Target> {
    match parse(text)
    case None => None
    case Some(u) =>
      if !ValidServiceUrl(u) then None
      else
        var parts := Split(u.host);
        if |parts| < 3 || parts[0] == "" || parts[1] == "" || parts[2] != "svc" then None
        else Some(Target(parts[0], parts[1], DerivePort(u), u.scheme))
  }

  /** A qualified in-cluster host: <name>.<namespace>.svc, perhaps followed by a cluster domain. */
  ghost predicate Qualified(host: string, name: string, ns: string) {
    && name != "" && NoDot(name) && ns != "" && NoDot(ns)
    && exists rest :: (rest == "" || rest[0] == '.') && host == Dotted(name, Dotted(ns, "svc" + rest))
  }

  predicate IsShort(host: string) { host != "" && NoDot(host) }

  /** What a URL denotes to a pod in namespace `ns`: cluster DNS, scheme and port. */
  ghost predicate Denotes(u: Url, ns: string, t: Target) {
    && (u.scheme == "http" || u.scheme == "https") && t.scheme == u.scheme && t.port == DerivePort(u)
    && (Qualified(u.host, t.name, t.namespace) || (IsShort(u.host) && t.name == u.host && t.namespace == ns))
  }

  predicate PlainPath(u: Url) { (u.path == "" || u.path == "/") && u.query == "" }

  lemma SvcHead(rest: string)
    requires rest == "" || rest[0] == '.'
    ensures Split("svc" + rest)[0] == "svc"
  {
    if rest == "" {
      assert "svc" + rest == "svc";
      SplitPlain("svc");
    } else {
      assert "svc" + rest == Dotted("svc", rest[1..]);
      SplitDotted("svc", rest[1..]);
    }
  }

  lemma QualifiedParts(name: string, ns: string, rest: string)
    requires NoDot(name) && NoDot(ns) && (rest == "" || rest[0] == '.')
    ensures var parts := Split(Dotted(name, Dotted(ns, "svc" + rest)));
            |parts| >= 3 && parts[0] == name && parts[1] == ns && parts[2] == "svc"
  {
    var tail := "svc" + rest;
    SplitDotted(name, Dotted(ns, tail));
    SplitDotted(ns, tail);
    SvcHead(rest);
    assert Split(Dotted(name, Dotted(ns, tail))) == [name] + ([ns] + Split(tail));
  }

  /** The textual test for a service host is implied by the host's parts. */
  lemma QualifiedText(name: string, ns: string, rest: string)
    requires rest == "" || rest[0] == '.'
    ensures var host := Dotted(name, Dotted(ns, "svc" + rest)); Contains(host, ".svc.") || HasSuffix(host, ".svc")
  {
    var front := Dotted(name, ns);
    var host := Dotted(name, Dotted(ns, "svc" + rest));
    assert host == front + (".svc" + rest);
    if rest == "" {
      assert host[|host| - 4..] == ".svc";
    } else {
      assert host == front + (".svc." + rest[1..]);
      assert OccursAt(host, ".svc.", |front|);
    }
  }

  /** A host with two parts or more is its first part, a dot, and the rest. */
  lemma {:induction false} TailOf(s: string) returns (tail: string)
    requires |Split(s)| >= 2
    ensures s == Dotted(Split(s)[0], tail) && NoDot(Split(s)[0]) && Split(tail) == Split(s)[1..]
  {
    var i := FirstDot(s);
    tail := s[i + 1..];
    assert s == s[..i] + "." + tail;
  }

  /** The first part is a prefix, followed by nothing or by a dot. */
  lemma {:induction false} AfterHead(s: string) returns (rest: string)
    ensures s == Split(s)[0] + rest && (rest == "" || rest[0] == '.')
  {
    rest := s[FirstDot(s)..];
  }

  lemma {:induction false} PartsAreQualified(host: string)
    requires |Split(host)| >= 3 && Split(host)[0] != "" && Split(host)[1] != "" && Split(host)[2] == "svc"
    ensures Qualified(host, Split(host)[0], Split(host)[1])
  {
    var h1 := TailOf(host);
    var h2 := TailOf(h1);
    var rest := AfterHead(h2);
  }

  /** A URL parses to a target exactly when its host is that qualified service and nothing else is asked of it. */
  lemma ParsedExactly(parse: Parser, text: string, u: Url, t: Target, ns: string)
    requires parse(text) == Some(u)
    ensures ParseServiceUrl(parse, text) == Some(t) <==> Denotes(u, ns, t) && !IsShort(u.host) && PlainPath(u)
  {
    if ParseServiceUrl(parse, text) == Some(t) {
      PartsAreQualified(u.host);
      if IsShort(u.host) { SplitPlain(u.host); }
    }
    if Denotes(u, ns, t) && !IsShort(u.host) {
      var rest :| (rest == "" || rest[0] == '.') && u.host == Dotted(t.name, Dotted(t.namespace, "svc" + rest));
      QualifiedParts(t.name, t.namespace, rest);
      QualifiedText(t.name, t.namespace, rest);
    }
  }

  // ---------------------------------------------------------------------------------------------
  // Server lists

  /** The URL text of a server entry, if it has a non-empty one. */
  function UrlText(server: Json): Option<string> {
    if server.Obj? && HasStr(server.m, "url") && server.m["url"].s != "" then Some(server.m["url"].s) else None
  }

  function ServerUrl(parse: Parser, server: Json): Option<Url> {
    match UrlText(server)
    case None => None
    case Some(t) => parse(t)
  }

  predicate UrlOnly(server: Json) { server.Obj? && |server.m| == 1 }

  function ServerTarget(parse: Parser, server: Json): Option<Target> {
    if !UrlOnly(server) || UrlText(server).None? then None else ParseServiceUrl(parse, UrlText(server).value)
  }

  /** All servers stand for one target. */
  function UniformTarget(parse: Parser, servers: seq<Json>): Option<Target> {
    if servers != [] && ServerTarget(parse, servers[0]).Some?
       && forall i :: 0 <= i < |servers| ==> ServerTarget(parse, servers[i]) == ServerTarget(parse, servers[0])
    then ServerTarget(parse, servers[0]) else None
  }

  method ParseUniformTargets(parse: Parser, servers: seq<Json>) returns (r: Option<Target>)
    ensures r == UniformTarget(parse, servers)
  {
    r := None;
    for i := 0 to |servers|
      invariant i == 0 ==> r == None
      invariant i > 0 ==> r.Some? && forall j :: 0 <= j < i ==> ServerTarget(parse, servers[j]) == r
    {
      var t := ServerTarget(parse, servers[i]);
      if t.None? { return None; }
      if r.None? { r := t; } else if r != t { return None; }
    }
  }

  /** The entry with its short name replaced by the qualified one; qualified hosts are left alone. */
  function RewriteServer(parse: Parser, ns: string, server: Json): Json {
    var u := ServerUrl(parse, server);
    if u.Some? && IsShort(u.value.host) then Obj(server.m["url" := Str(FqdnText(u.value, ns))]) else server
  }

  /** Every short name among the servers, once qualified, parses to its parts. */
  ghost predicate ReadsBack(parse: Parser, ns: string, servers: seq<Json>) {
    forall i :: 0 <= i < |servers| ==> ServerReadsBack(parse, ns, servers[i])
  }

  ghost predicate ServerReadsBack(parse: Parser, ns: string, server: Json) {
    var u := ServerUrl(parse, server);
    u.Some? && IsShort(u.value.host) ==> parse(FqdnText(u.value, ns)) == Some(FqdnUrl(u.value, ns))
  }

  predicate AllUrls(parse: Parser, servers: seq<Json>) {
    forall i :: 0 <= i < |servers| ==> ServerUrl(parse, servers[i]).Some?
  }

  predicate SomeShort(parse: Parser, servers: seq<Json>) {
    exists i :: 0 <= i < |servers| && ServerUrl(parse, servers[i]).Some?
      && IsShort(ServerUrl(parse, servers[i]).value.host)
  }

  function RewriteAll(parse: Parser, ns: string, servers: seq<Json>): seq<Json> {
    seq(|servers|, i requires 0 <= i < |servers| => RewriteServer(parse, ns, servers[i]))
  }

  /** The loop overwrites URLs as it goes and gives up at the first entry it cannot read, leaving the rest. */
  method RewriteShortNames(parse: Parser, servers: seq<Json>, ns: string) returns (out: seq<Json>, changed: bool)
    ensures changed <==> ns != "" && AllUrls(parse, servers) && SomeShort(parse, servers)
    ensures changed ==> out == RewriteAll(parse, ns, servers)
  {
    out, changed := servers, false;
    if ns == "" { return; }
    for i := 0 to |servers|
      invariant |out| == |servers| && AllUrls(parse, servers[..i])
      invariant changed <==> SomeShort(parse, servers[..i])
      invariant forall j :: 0 <= j < i ==> out[j] == RewriteServer(parse, ns, servers[j])
      invariant forall j :: i <= j < |servers| ==> out[j] == servers[j]
    {
      var u := ServerUrl(parse, out[i]);
      if u.None? { changed := false; return; }
      assert servers[..i + 1] == servers[..i] + [servers[i]];
      ghost var was := changed;
      if IsShort(u.value.host) {
        out := out[i := RewriteServer(parse, ns, out[i])];
        changed := true;
        assert servers[..i + 1][i] == servers[i];
      } else {
        assert SomeShort(parse, servers[..i + 1]) ==> SomeShort(parse, servers[..i]);
      }
      if was {
        var j :| 0 <= j < i && ServerUrl(parse, servers[..i][j]).Some?
          && IsShort(ServerUrl(parse, servers[..i][j]).value.host);
        assert servers[..i + 1][j] == servers[j];
      }
    }
    assert servers[..|servers|] == servers;
    assert out == RewriteAll(parse, ns, servers);
  }

  // ---------------------------------------------------------------------------------------------
  // One service

  /** A spec that is a load balancer with servers and nothing else. */
  function LbServers(spec: Object): Option<seq<Json>> {
    if |spec| == 1 && HasObj(spec, "loadBalancer") && spec["loadBalancer"].m.Keys == {"servers"}
      && HasArr(spec["loadBalancer"].m, "servers")
       && spec["loadBalancer"].m["servers"].xs != []
    then Some(spec["loadBalancer"].m["servers"].xs) else None
  }

  predicate IsEmptyLb(spec: Object) {
    && |spec| == 1 && HasObj(spec, "loadBalancer") && |spec["loadBalancer"].m| == 1
    && HasArr(spec["loadBalancer"].m, "servers") && spec["loadBalancer"].m["servers"].xs == []
  }

  /** Which documents those are, spelled out. */
  lemma LoadBalancersExactly(spec: Object, servers: seq<Json>)
    ensures LbServers(spec) == Some(servers) <==>
              servers != [] && spec == map["loadBalancer" := Obj(map["servers" := Arr(servers)])]
    ensures IsEmptyLb(spec) <==> spec == map["loadBalancer" := Obj(map["servers" := Arr([])])]
  {
    if LbServers(spec).Some? || IsEmptyLb(spec) {
      OnlyEntry(spec, "loadBalancer");
      var lb := spec["loadBalancer"].m;
      assert lb == map["servers" := lb["servers"]] by {
        if LbServers(spec).Some? { assert lb.Keys == {"servers"}; } else { OnlyEntry(lb, "servers"); }
      }
    }
    var lb := map["servers" := Arr(servers)];
    assert |lb| == 1 && |map["loadBalancer" := Obj(lb)]| == 1 && lb.Keys == {"servers"};
    var none: Object := map["servers" := Arr([])];
    assert |none| == 1 && |map["loadBalancer" := Obj(none)]| == 1;
  }

  function ConvertServers(parse: Parser, cfg: Config, servers: seq<Json>): Option<Target> {
    var first := UniformTarget(parse, servers);
    if first.Some? then first
    else if cfg.namespace != "" && AllUrls(parse, servers) && SomeShort(parse, servers)
    then UniformTarget(parse, RewriteAll(parse, cfg.namespace, servers))
    else None
  }

  /** A weighted spec with one Kubernetes Service. */
  function ServiceEntry(name: string, ns: string, port: int, https: bool): Json {
    var base := map["name" := Str(name), "namespace" := Str(ns), "kind" := Str("Service"), "port" := Num(port as real)];
    Obj(if https then base["scheme" := Str("https")] else base)
  }

  function Weighted(entry: Json): Raw {
    Doc(Obj(map["weighted" := Obj(map["services" := Arr([entry])])]))
  }

  /** What Traefik makes of a weighted spec with one Kubernetes Service; without a scheme it is http. */
  function ReadWeighted(raw: Raw): Option<Target> {
    match raw
    case Doc(Obj(spec)) =>
      if !HasObj(spec, "weighted") || !HasArr(spec["weighted"].m, "services")
        || |spec["weighted"].m["services"].xs| != 1 then None
      else
        (match spec["weighted"].m["services"].xs[0]
         case Obj(e) =>
           if StrField(e, "kind") == "Service" && HasStr(e, "name") && HasStr(e, "namespace") && "port" in e
             && e["port"].Num? then
             Some(Target(e["name"].s, e["namespace"].s, e["port"].n.Floor, if HasStr(e, "scheme") then e["scheme"].s
               else "http"))
           else None
         case _ => None)
    case _ => None
  }

  /** The written entry reads back as the target it was written for. */
  lemma EntryReadsBack(name: string, ns: string, port: int, https: bool)
    ensures ReadWeighted(Weighted(ServiceEntry(name, ns, port, https))) ==
            Some(Target(name, ns, port, if https then "https" else "http"))
  {
    assert (port as real).Floor == port;
  }

  /** A load balancer with one server. */
  function LoadBalancerOf(url: string): Raw {
    Doc(Obj(map["loadBalancer" := Obj(map["servers" := Arr([Obj(map["url" := Str(url)])])])]))
  }

  datatype Outcome = Converted(t: Target) | Gateway | Filled | Unchanged

  /** What becomes of a service. */
  function OutcomeOf(parse: Parser, cfg: Config, raw: Raw): Outcome {
    if raw.Empty? || raw == Doc(Obj(map[])) then
      (match (if cfg.envUrl == "" then None else parse(cfg.envUrl))
       case Some(u) => if u.host != "" && (u.scheme == "http" || u.scheme == "https") then Filled else Unchanged
       case None => Unchanged)
    else
      match DecodeObject(raw)
      case None => Unchanged
      case Some(spec) =>
        var servers := LbServers(spec);
        if servers.Some? && ConvertServers(parse, cfg, servers.value).Some? then
          Converted(ConvertServers(parse, cfg, servers.value).value)
        else if IsEmptyLb(spec) && cfg.gatewayName != "" && cfg.namespace != "" then Gateway
        else Unchanged
  }

  function ResultOf(cfg: Config, raw: Raw, o: Outcome): Raw {
    match o
    case Converted(t) => Weighted(ServiceEntry(t.name, t.namespace, t.port, t.scheme == "https"))
    case Gateway => Weighted(ServiceEntry(cfg.gatewayName, cfg.namespace, cfg.gatewayPort, false))
    case Filled => LoadBalancerOf(cfg.envUrl)
    case Unchanged => raw
  }

  /** processSingleService: the spec is rewritten in place, but only a conversion is marshalled back. */
  method ProcessService(parse: Parser, cfg: Config, raw: Raw) returns (out: Raw)
    ensures out == ResultOf(cfg, raw, OutcomeOf(parse, cfg, raw))
  {
    if raw.Empty? || raw == Doc(Obj(map[])) {
      if cfg.envUrl == "" { return raw; }
      var u := parse(cfg.envUrl);
      if u.None? || u.value.host == "" || (u.value.scheme != "http" && u.value.scheme != "https") { return raw; }
      return LoadBalancerOf(cfg.envUrl);
    }
    var spec := DecodeObject(raw);
    if spec.None? { return raw; }
    var servers := LbServers(spec.value);
    if servers.Some? {
      var t := ParseUniformTargets(parse, servers.value);
      if t.None? && cfg.namespace != "" {
        var rewritten, changed := RewriteShortNames(parse, servers.value, cfg.namespace);
        if changed { t := ParseUniformTargets(parse, rewritten); }
      }
      if t.Some? {
        return Weighted(ServiceEntry(t.value.name, t.value.namespace, t.value.port, t.value.scheme == "https"));
      }
    }
    if IsEmptyLb(spec.value) && cfg.gatewayName != "" {
      if cfg.namespace == "" { return raw; }
      return Weighted(ServiceEntry(cfg.gatewayName, cfg.namespace, cfg.gatewayPort, false));
    }
    return raw;
  }

  method ProcessServices(parse: Parser, cfg: Config, services: map<string, Raw>) returns (out: map<string, Raw>)
    ensures out.Keys == services.Keys
    ensures forall n :: n in services ==> out[n] == ResultOf(cfg, services[n], OutcomeOf(parse, cfg, services[n]))
  {
    out := map[];
    var rest := services.Keys;
    while rest != {}
      invariant rest <= services.Keys && out.Keys == services.Keys - rest
      invariant forall n :: n in out ==> out[n] == ResultOf(cfg, services[n], OutcomeOf(parse, cfg, services[n]))
      decreases rest
    {
      var n :| n in rest;
      var raw := ProcessService(parse, cfg, services[n]);
      out := out[n := raw];
      rest := rest - {n};
    }
  }

  // ---------------------------------------------------------------------------------------------
  // The theorems

  /** A server list that can be converted: every URL denotes `t`, and a qualified one asks for no path or query. */
  ghost predicate Convertible(parse: Parser, ns: string, servers: seq<Json>, t: Target) {
    && servers != []
    && forall i :: 0 <= i < |servers| ==> ConvertibleServer(parse, ns, servers[i], t)
  }

  ghost predicate ConvertibleServer(parse: Parser, ns: string, server: Json, t: Target) {
    && UrlOnly(server) && ServerUrl(parse, server).Some?
    && var u := ServerUrl(parse, server).value;
       Denotes(u, ns, t) && (if IsShort(u.host) then ns != "" else PlainPath(u))
  }

  /**
    The same over the entry itself: it holds a URL text and nothing else, and that reads as an http or https
    URL whose host is a name without dots, or else a qualified host asked for no path and no query.
   */
  lemma ConvertibleExactly(parse: Parser, ns: string, server: Json, t: Target)
    ensures ConvertibleServer(parse, ns, server, t) <==>
              && server.Obj? && server.m.Keys == {"url"} && server.m["url"].Str? && server.m["url"].s != ""
              && parse(server.m["url"].s).Some? && var u := parse(server.m["url"].s).value;
                 && (u.scheme == "http" || u.scheme == "https") && t.scheme == u.scheme && t.port == DerivePort(u)
                 && if u.host != "" && '.' !in u.host then ns != "" && t.name == u.host && t.namespace == ns
                    else u.path in {"", "/"} && u.query == "" && Qualified(u.host, t.name, t.namespace)
  {
    if server.Obj? && "url" in server.m {
      if |server.m| == 1 { OnlyEntry(server.m, "url"); }
      if server.m.Keys == {"url"} { assert |server.m| == |server.m.Keys|; }
    }
    if ServerUrl(parse, server).Some? {
      var u := ServerUrl(parse, server).value;
      assert NoDot(u.host) <==> '.' !in u.host;
      if IsShort(u.host) { ShortIsNotQualified(u.host, t.name, t.namespace); }
    }
  }

  lemma QualifiedServer(parse: Parser, ns: string, server: Json, t: Target)
    ensures ServerTarget(parse, server) == Some(t) <==>
              ConvertibleServer(parse, ns, server, t) && !IsShort(ServerUrl(parse, server).value.host)
  {
    if ServerUrl(parse, server).Some? {
      ParsedExactly(parse, UrlText(server).value, ServerUrl(parse, server).value, t, ns);
    }
  }

  lemma ShortServer(parse: Parser, ns: string, server: Json, t: Target)
    requires ns != "" && NoDot(ns) && ServerReadsBack(parse, ns, server)
    requires ServerUrl(parse, server).Some?
    ensures ServerTarget(parse, RewriteServer(parse, ns, server)) == Some(t) <==>
              ConvertibleServer(parse, ns, server, t)
  {
    var u := ServerUrl(parse, server).value;
    if IsShort(u.host) {
      var s' := RewriteServer(parse, ns, server);
      assert s'.m.Keys == server.m.Keys;
      SameSize(server.m, s'.m);
      var f := FqdnUrl(u, ns);
      TextIsNotEmpty(u, ns);
      assert ServerUrl(parse, s') == Some(f);
      QualifiedServer(parse, ns, s', t);
      QualifiedFqdn(u, ns, t);
    } else {
      QualifiedServer(parse, ns, server, t);
    }
  }

  lemma TextIsNotEmpty(u: Url, ns: string)
    ensures FqdnText(u, ns) != ""
  {
    assert |FqdnText(u, ns)| >= 3;
  }

  lemma SameSize(m: Object, n: Object)
    requires m.Keys == n.Keys
    ensures |m| == |n|
  {
    assert |m| == |m.Keys| && |n| == |n.Keys|;
  }

  /** The qualified form of a short name denotes what the short name denotes in its own namespace. */
  lemma QualifiedFqdn(u: Url, ns: string, t: Target)
    requires IsShort(u.host) && ns != "" && NoDot(ns)
    ensures !IsShort(FqdnUrl(u, ns).host) && PlainPath(FqdnUrl(u, ns))
    ensures Denotes(FqdnUrl(u, ns), ns, t) <==> Denotes(u, ns, t)
  {
    var f := FqdnUrl(u, ns);
    assert f.host[|u.host|] == '.';
    assert "svc" + "" == "svc";
    assert Qualified(f.host, u.host, ns);
    QualifiedParts(u.host, ns, "");
    if Qualified(f.host, t.name, t.namespace) {
      var rest :| (rest == "" || rest[0] == '.') && f.host == Dotted(t.name, Dotted(t.namespace, "svc" + rest));
      QualifiedParts(t.name, t.namespace, rest);
    }
    ShortIsNotQualified(u.host, t.name, t.namespace);
  }

  lemma ShortIsNotQualified(host: string, name: string, ns: string)
    requires NoDot(host)
    ensures !Qualified(host, name, ns)
  {
    forall rest ensures host != Dotted(name, Dotted(ns, "svc" + rest)) {
      var d := Dotted(name, Dotted(ns, "svc" + rest));
      assert d[|name|] == '.';
    }
  }

  /** Conversion happens exactly for the convertible server lists, and to the target they denote. */
  lemma ConvertsExactly(parse: Parser, cfg: Config, servers: seq<Json>, t: Target)
    requires NoDot(cfg.namespace) && ReadsBack(parse, cfg.namespace, servers)
    ensures ConvertServers(parse, cfg, servers) == Some(t) <==> Convertible(parse, cfg.namespace, servers, t)
  {
    var ns := cfg.namespace;
    forall i | 0 <= i < |servers|
      ensures ServerTarget(parse, servers[i]) == Some(t) <==>
                ConvertibleServer(parse, ns, servers[i], t) && !IsShort(ServerUrl(parse, servers[i]).value.host)
    {
      QualifiedServer(parse, ns, servers[i], t);
    }
    if UniformTarget(parse, servers).Some? {
      UniformIsQualified(parse, ns, servers, t);
    } else if ns != "" && AllUrls(parse, servers) && SomeShort(parse, servers) {
      RewrittenUniform(parse, ns, servers, t);
    } else if Convertible(parse, ns, servers, t) {
      NoShortIsUniform(parse, ns, servers, t);
    }
  }

  lemma UniformIsQualified(parse: Parser, ns: string, servers: seq<Json>, t: Target)
    requires UniformTarget(parse, servers).Some?
    ensures UniformTarget(parse, servers) == Some(t) <==> Convertible(parse, ns, servers, t)
  {
    var t0 := UniformTarget(parse, servers).value;
    forall i | 0 <= i < |servers|
      ensures ServerTarget(parse, servers[i]) == Some(t) <==> ConvertibleServer(parse, ns, servers[i], t)
    {
      QualifiedServer(parse, ns, servers[i], t);
      QualifiedServer(parse, ns, servers[i], t0);
    }
  }

  lemma RewrittenUniform(parse: Parser, ns: string, servers: seq<Json>, t: Target)
    requires ns != "" && NoDot(ns) && AllUrls(parse, servers) && ReadsBack(parse, ns, servers)
    ensures UniformTarget(parse, RewriteAll(parse, ns, servers)) == Some(t) <==> Convertible(parse, ns, servers, t)
  {
    var rs := RewriteAll(parse, ns, servers);
    forall i | 0 <= i < |servers|
      ensures ServerTarget(parse, rs[i]) == Some(t) <==> ConvertibleServer(parse, ns, servers[i], t)
    {
      ShortServer(parse, ns, servers[i], t);
    }
  }

  lemma NoShortIsUniform(parse: Parser, ns: string, servers: seq<Json>, t: Target)
    requires Convertible(parse, ns, servers, t)
    requires !(ns != "" && AllUrls(parse, servers) && SomeShort(parse, servers))
    ensures UniformTarget(parse, servers) == Some(t)
  {
    forall i | 0 <= i < |servers| ensures ServerTarget(parse, servers[i]) == Some(t) {
      assert ConvertibleServer(parse, ns, servers[i], t);
      assert AllUrls(parse, servers) by {
        forall j | 0 <= j < |servers|
          ensures ServerUrl(parse, servers[j]).Some?
        {
          assert ConvertibleServer(parse, ns, servers[j], t);
        }
      }
      QualifiedServer(parse, ns, servers[i], t);
    }
  }

  /** Every converted service is backed by exactly what each of its servers denoted. */
  lemma ConversionKeepsTheBackend(parse: Parser, cfg: Config, raw: Raw, i: nat)
    requires OutcomeOf(parse, cfg, raw).Converted?
    requires NoDot(cfg.namespace) && ReadsBack(parse, cfg.namespace, LbServers(DecodeObject(raw).value).value)
    requires i < |LbServers(DecodeObject(raw).value).value|
    ensures var server := LbServers(DecodeObject(raw).value).value[i];
            var written := ReadWeighted(ResultOf(cfg, raw, OutcomeOf(parse, cfg, raw)));
            written.Some? && ServerUrl(parse, server).Some? && Denotes(ServerUrl(parse, server).value, cfg.namespace,
              written.value)
  {
    var servers := LbServers(DecodeObject(raw).value).value;
    var t := OutcomeOf(parse, cfg, raw).t;
    ConvertsExactly(parse, cfg, servers, t);
    assert ConvertibleServer(parse, cfg.namespace, servers[i], t);
    EntryReadsBack(t.name, t.namespace, t.port, t.scheme == "https");
  }

  /** A service is converted exactly when its document is a load balancer whose servers convert. */
  lemma ConvertedExactly(parse: Parser, cfg: Config, raw: Raw, t: Target)
    ensures OutcomeOf(parse, cfg, raw) == Converted(t) <==>
              exists xs :: xs != [] && raw == Doc(Obj(map["loadBalancer" := Obj(map["servers" := Arr(xs)])]))
                && ConvertServers(parse, cfg, xs) == Some(t)
  {
    if OutcomeOf(parse, cfg, raw) == Converted(t) {
      LoadBalancersExactly(raw.v.m, LbServers(raw.v.m).value);
    }
    forall xs | xs != [] && raw == Doc(Obj(map["loadBalancer" := Obj(map["servers" := Arr(xs)])]))
                && ConvertServers(parse, cfg, xs) == Some(t)
      ensures OutcomeOf(parse, cfg, raw) == Converted(t)
    {
      LoadBalancersExactly(raw.v.m, xs);
    }
  }

  /** The gateway goes to the load balancer without servers, if there is a gateway. */
  lemma GatewayExactly(parse: Parser, cfg: Config, raw: Raw)
    ensures OutcomeOf(parse, cfg, raw).Gateway? <==>
              && raw == Doc(Obj(map["loadBalancer" := Obj(map["servers" := Arr([])])]))
              && cfg.gatewayName != "" && cfg.namespace != ""
  {
    if raw.Doc? && raw.v.Obj? {
      LoadBalancersExactly(raw.v.m, []);
      if raw.v.m == map["loadBalancer" := Obj(map["servers" := Arr([])])] {
        assert raw.v.m["loadBalancer"].m["servers"] == Arr([]);
      }
    }
  }

  /**
    An absent or empty document is filled if the environment has a usable URL, an empty load balancer is
    given the gateway Service, and what is neither of these nor converted is returned as it came.
   */
  lemma OtherOutcomes(parse: Parser, cfg: Config, raw: Raw)
    ensures OutcomeOf(parse, cfg, raw).Gateway? ==>
              && raw == Doc(Obj(map["loadBalancer" := Obj(map["servers" := Arr([])])]))
              && ReadWeighted(ResultOf(cfg, raw, OutcomeOf(parse, cfg, raw))) ==
                Some(Target(cfg.gatewayName, cfg.namespace, cfg.gatewayPort, "http"))
    ensures OutcomeOf(parse, cfg, raw).Filled? <==>
              && (raw.Empty? || raw == Doc(Obj(map[]))) && cfg.envUrl != "" && parse(cfg.envUrl).Some?
              && var u := parse(cfg.envUrl).value; u.host != "" && (u.scheme == "http" || u.scheme == "https")
    ensures OutcomeOf(parse, cfg, raw).Unchanged? ==> ResultOf(cfg, raw, OutcomeOf(parse, cfg, raw)) == raw
  {
    EntryReadsBack(cfg.gatewayName, cfg.namespace, cfg.gatewayPort, false);
    GatewayExactly(parse, cfg, raw);
  }

  /** The documents that are written, spelled out. */
  lemma ResultsExactly(cfg: Config, raw: Raw, t: Target)
    ensures t.scheme != "https" ==>
              ResultOf(cfg, raw, Converted(t)) ==
              Doc(Obj(map["weighted" := Obj(map["services" := Arr([Obj(map["name" := Str(t.name),
                "namespace" := Str(t.namespace), "kind" := Str("Service"), "port" := Num(t.port as real)])])])]))
    ensures t.scheme == "https" ==>
              ResultOf(cfg, raw, Converted(t)) ==
              Doc(Obj(map["weighted" := Obj(map["services" := Arr([Obj(map["name" := Str(t.name),
                "namespace" := Str(t.namespace), "kind" := Str("Service"), "port" := Num(t.port as real),
                "scheme" := Str("https")])])])]))
    ensures ResultOf(cfg, raw, Filled) ==
            Doc(Obj(map["loadBalancer" := Obj(map["servers" := Arr([Obj(map["url" := Str(cfg.envUrl)])])])]))
  {
  }

  lemma OnlyEntry(m: Object, k: string)
    requires |m| == 1 && k in m
    ensures m == map[k := m[k]]
  {
    assert |m.Keys - {k}| == 0;
    assert m.Keys == {k};
  }

  /** Qualified servers are converted only without path and query, so nothing of them is lost. */
  lemma QualifiedServersLoseNothing(parse: Parser, cfg: Config, servers: seq<Json>, t: Target, i: nat)
    requires NoDot(cfg.namespace) && ReadsBack(parse, cfg.namespace, servers)
    requires ConvertServers(parse, cfg, servers) == Some(t) && i < |servers|
    ensures ServerUrl(parse, servers[i]).Some?
    ensures var u := ServerUrl(parse, servers[i]).value; IsShort(u.host) || PlainPath(u)
  {
    ConvertsExactly(parse, cfg, servers, t);
    assert ConvertibleServer(parse, cfg.namespace, servers[i], t);
  }

  /** A short name, however, is converted whatever path and query it came with, and those are dropped. */
  lemma ShortNamesLoseTheirPath(parse: Parser, cfg: Config, text: string, u: Url)
    requires NoDot(cfg.namespace) && cfg.namespace != "" && parse(FqdnText(u, cfg.namespace)) ==
             Some(FqdnUrl(u, cfg.namespace))
    requires text != "" && parse(text) == Some(u) && IsShort(u.host) && (u.scheme == "http" || u.scheme == "https")
    ensures ConvertServers(parse, cfg, [Obj(map["url" := Str(text)])]) ==
            Some(Target(u.host, cfg.namespace, DerivePort(u), u.scheme))
  {
    var server := Obj(map["url" := Str(text)]);
    var t := Target(u.host, cfg.namespace, DerivePort(u), u.scheme);
    assert |server.m| == 1;
    assert ConvertibleServer(parse, cfg.namespace, server, t);
    ConvertsExactly(parse, cfg, [server], t);
  }

  // ---------------------------------------------------------------------------------------------
  // When a qualified short name reads back

  /** The characters of a DNS label. */
  predicate IsLabelText(s: string) {
    s != "" && forall i :: 0 <= i < |s| ==>
      'a' <= s[i] <= 'z' || 'A' <= s[i] <= 'Z' || '0' <= s[i] <= '9' || s[i] == '-'
  }

  /** A URL with a scheme, host and port of ordinary characters and nothing else. */
  predicate IsPlainUrl(u: Url) {
    && u.scheme != "" && Free(u.scheme, {':'}) && u.path == "" && u.query == ""
    && u.host != "" && Free(u.host, HOST_END) && (forall i :: 0 <= i < |u.port| ==> '0' <= u.port[i] <= '9')
    && forall i :: 0 <= i < |u.host| ==> u.host[i] == '.' || IsLabelText([u.host[i]])
  }

  function PlainText(u: Url): string { u.scheme + "://" + u.host + PortSuffix(u.port) }

  /** All that is asked of a parser: it reads a URL made of DNS labels and digits as what it says. */
  ghost predicate ReadsPlainUrls(parse: Parser) {
    forall u :: IsPlainUrl(u) && (exists text :: parse(text).Some? && parse(text).value.scheme == u.scheme) ==>
      parse(PlainText(u)) == Some(u)
  }

  /**
    Then every list of servers reads back whose short names and namespace are DNS labels and whose ports
    are numbers.
   */
  lemma LabelsReadBack(parse: Parser, ns: string, servers: seq<Json>)
    requires ReadsPlainUrls(parse) && IsLabelText(ns)
    requires forall i :: 0 <= i < |servers| ==> ShortsArePlain(parse, servers[i])
    ensures ReadsBack(parse, ns, servers) && NoDot(ns)
  {
    forall i | 0 <= i < |servers| ensures ServerReadsBack(parse, ns, servers[i]) {
      var u := ServerUrl(parse, servers[i]);
      if u.Some? && IsShort(u.value.host) {
        QualifiedIsPlain(u.value, ns);
        assert parse(UrlText(servers[i]).value) == u;
      }
    }
  }

  predicate ShortsArePlain(parse: Parser, server: Json) {
    var u := ServerUrl(parse, server);
    u.Some? && IsShort(u.value.host) ==> PlainShort(u.value)
  }

  predicate PlainShort(u: Url) {
    u.scheme != "" && Free(u.scheme, {':'}) && IsLabelText(u.host) && forall i :: 0 <= i < |u.port| ==>
      '0' <= u.port[i] <= '9'
  }

  lemma QualifiedIsPlain(u: Url, ns: string)
    requires PlainShort(u) && IsLabelText(ns)
    ensures IsPlainUrl(FqdnUrl(u, ns)) && PlainText(FqdnUrl(u, ns)) == FqdnText(u, ns)
  {
    var f := FqdnUrl(u, ns);
    var tail := ns + ".svc";
    assert f.host == u.host + "." + tail;
    forall i | 0 <= i < |f.host| ensures f.host[i] == '.' || IsLabelText([f.host[i]]) {
      if i < |u.host| { assert f.host[i] == u.host[i]; }
      else if i == |u.host| {}
      else if i <= |u.host| + |ns| { assert f.host[i] == ns[i - |u.host| - 1]; }
      else { assert f.host[i] == ".svc"[i - |u.host| - 1 - |ns|]; }
    }
    forall i | 0 <= i < |f.host| ensures f.host[i] !in HOST_END { assert f.host[i] == '.' || IsLabelText([f.host[i]]); }
    assert FqdnText(u, ns) == u.scheme + "://" + f.host + PortSuffix(u.port);
  }

  // The generic syntax of section 3 of RFC 3986, for an authority that is a host and perhaps a port.

  const HOST_END: set<char> := {':', '/', '?'}

  predicate Free(s: string, stops: set<char>) { forall i :: 0 <= i < |s| ==> s[i] !in stops }

  /** The first position of one of the characters, or the length. */
  function Index(s: string, stops: set<char>): (i: nat)
    ensures i <= |s| && Free(s[..i], stops) && (i < |s| ==> s[i] in stops)
  {
    if s == "" || s[0] in stops then 0 else 1 + Index(s[1..], stops)
  }

  function ReadAuthority(scheme: string, rest: string): Url {
    var q := Index(rest, {'?'});
    var front, query := rest[..q], if q < |rest| then rest[q + 1..] else "";
    var a := Index(front, {'/'});
    var auth := front[..a];
    var c := Index(auth, {':'});
    Url(scheme, auth[..c], if c < |auth| then auth[c + 1..] else "", front[a..], query)
  }

  function ReadUrl(text: string): Option<Url> {
    var i := Index(text, {':'});
    if i + 3 > |text| || text[i..i + 3] != "://" then None
    else Some(ReadAuthority(text[..i], text[i + 3..]))
  }

  lemma {:induction false} IndexAt(a: string, rest: string, stops: set<char>)
    requires Free(a, stops) && (rest == "" || rest[0] in stops)
    ensures Index(a + rest, stops) == |a|
  {
    if a == "" {
      assert a + rest == rest;
    } else {
      assert (a + rest)[1..] == a[1..] + rest;
      IndexAt(a[1..], rest, stops);
    }
  }

  lemma FreeParts(a: string, b: string, stops: set<char>)
    ensures Free(a + b, stops) <==> Free(a, stops) && Free(b, stops)
  {
    if Free(a + b, stops) {
      forall i | 0 <= i < |a| ensures a[i] !in stops { assert (a + b)[i] == a[i]; }
      forall i | 0 <= i < |b| ensures b[i] !in stops { assert (a + b)[|a| + i] == b[i]; }
    }
  }

  /** An authority is read back exactly when no delimiter occurs where it would end a part early. */
  lemma AuthorityReadsBack(scheme: string, host: string, port: string)
    ensures ReadAuthority(scheme, host + PortSuffix(port)) == Url(scheme, host, port, "", "")
            <==> Free(host, HOST_END) && Free(port, {'/', '?'})
  {
    var text := host + PortSuffix(port);
    if Free(host, HOST_END) && Free(port, {'/', '?'}) {
      FreeParts(host, PortSuffix(port), {'?'});
      FreeParts(host, PortSuffix(port), {'/'});
      IndexAt(text, "", {'?'});
      assert text + "" == text && text[..|text|] == text;
      IndexAt(text, "", {'/'});
      IndexAt(host, PortSuffix(port), {':'});
    } else {
      ReadPartsAreFree(scheme, text);
    }
  }

  /** What is read as host or port never contains a delimiter that ends it. */
  lemma ReadPartsAreFree(scheme: string, rest: string)
    ensures var u := ReadAuthority(scheme, rest); Free(u.host, HOST_END) && Free(u.port, {'/', '?'})
  {
    var front := rest[..Index(rest, {'?'})];
    var auth := front[..Index(front, {'/'})];
    forall i | 0 <= i < |auth| ensures auth[i] !in {'/', '?'} { assert auth[i] == front[i]; }
  }

  lemma SchemeReadsBack(scheme: string, rest: string)
    requires Free(scheme, {':'})
    ensures ReadUrl(scheme + "://" + rest) == Some(ReadAuthority(scheme, rest))
  {
    var text := scheme + "://" + rest;
    assert text == scheme + ("://" + rest);
    IndexAt(scheme, "://" + rest, {':'});
    assert text[..|scheme|] == scheme && text[|scheme|..|scheme| + 3] == "://" && text[|scheme| + 3..] == rest;
  }

  /**
    A qualified short name reads back if and only if neither its host nor the namespace contains a
    delimiter and its port contains no '/' or '?'. DNS labels do; a namespace "b/c" or a bare IPv6
    address does not.
   */
  lemma ReadsBackExactly(u: Url, ns: string)
    requires Free(u.scheme, {':'})
    ensures ReadUrl(FqdnText(u, ns)) == Some(FqdnUrl(u, ns)) <==>
              Free(u.host, HOST_END) && Free(ns, HOST_END) && Free(u.port, {'/', '?'})
  {
    var host := FqdnUrl(u, ns).host;
    assert FqdnText(u, ns) == u.scheme + "://" + (host + PortSuffix(u.port)) by { FqdnTextParts(u, ns); }
    SchemeReadsBack(u.scheme, host + PortSuffix(u.port));
    AuthorityReadsBack(u.scheme, host, u.port);
    FreeHost(u.host, ns);
  }

  lemma FqdnTextParts(u: Url, ns: string)
    ensures FqdnText(u, ns) == u.scheme + "://" + (FqdnUrl(u, ns).host + PortSuffix(u.port))
  {
    assert u.host + "." + ns + ".svc" == FqdnUrl(u, ns).host;
  }

  lemma FreeHost(name: string, ns: string)
    ensures Free(Dotted(name, Dotted(ns, "svc")), HOST_END) <==> Free(name, HOST_END) && Free(ns, HOST_END)
  {
    assert Dotted(name, Dotted(ns, "svc")) == name + ("." + (ns + ".svc"));
    FreeParts(name, "." + (ns + ".svc"), HOST_END);
    FreeParts(".", ns + ".svc", HOST_END);
    FreeParts(ns, ".svc", HOST_END);
  }

  /** So a parser of that syntax meets what is asked of a parser. */
  lemma GenericSyntaxReadsPlainUrls()
    ensures ReadsPlainUrls(ReadUrl)
  {
    forall u | IsPlainUrl(u) ensures ReadUrl(PlainText(u)) == Some(u) {
      assert PlainText(u) == u.scheme + "://" + (u.host + PortSuffix(u.port));
      SchemeReadsBack(u.scheme, u.host + PortSuffix(u.port));
      AuthorityReadsBack(u.scheme, u.host, u.port);
    }
  }
}
