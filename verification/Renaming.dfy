/**
  Rewriting the names and references of a configuration (internal/transform/sanitize/sanitize.go).

  Where a section holds references is written down once, as a `Schema`; the section rewriters of the
  source are methods proved equal to rewriting by that schema. The meaning of a configuration is what
  its references unfold to, with every name erased, so that "renaming preserves meaning" is an
  equation between two trees.
 */
module Renaming {
  import opened Results
  import opened JsonValues
  import opened Ordering
  import opened Text

  datatype Section = Middlewares | Routers | Services | Transports

  datatype Config = Config(
    middlewares: map<string, Raw>,
    routers: map<string, Raw>,
    services: map<string, Raw>,
    transports: map<string, Raw>)

  function Defs(cfg: Config, t: Section): map<string, Raw> {
    match t
    case Middlewares => cfg.middlewares
    case Routers => cfg.routers
    case Services => cfg.services
    case Transports => cfg.transports
  }

  // ---------------------------------------------------------------------------------------------
  // Where the references are

  datatype Schema = Leaf | Ref(target: Section) | Items(item: Schema) | Fields(fields: map<string, Schema>)

  const ENTRIES := Items(Fields(map["name" := Ref(Services)]))
  const WEIGHTED := Fields(map["services" := ENTRIES])
  const MIRRORING := Fields(map["service" := Ref(Services), "mirrors" := ENTRIES])
  const FAILOVER := Fields(map["service" := Ref(Services), "fallback" := Ref(Services)])
  const LOAD_BALANCER := Fields(map["serversTransport" := Ref(Transports)])
  const MIDDLEWARE_NAMES := Items(Ref(Middlewares))
  const CHAIN := Fields(map["middlewares" := MIDDLEWARE_NAMES])

  function SchemaOf(t: Section): Schema {
    match t
    case Routers => Fields(map["service" := Ref(Services), "middlewares" := MIDDLEWARE_NAMES])
    case Middlewares => Fields(map["chain" := CHAIN])
    case Services => Fields(map["weighted" := WEIGHTED, "mirroring" := MIRRORING, "failover" := FAILOVER,
      "loadBalancer" := LOAD_BALANCER])
    case Transports => Leaf
  }

  /** Apply `f` to every reference; leave everything else as it is. */
  function Rewrite(s: Schema, f: Namer, v: Json): Json
    decreases s
  {
    match (s, v)
    case (Ref(_), Str(n)) => Str(f(n))
    case (Items(e), Arr(xs)) => Arr(seq(|xs|, i requires 0 <= i < |xs| => Rewrite(e, f, xs[i])))
    case (Fields(fs), Obj(m)) => Obj(map k | k in m :: if k in fs then Rewrite(fs[k], f, m[k]) else m[k])
    case _ => v
  }

  /**
    Whether a raw message survives rewriting: transports are never parsed, the rest must be an object,
    `null` or empty.
   */
  predicate Decodes(t: Section, raw: Raw) {
    t.Transports? || raw.Empty? || DecodeObject(raw).Some?
  }

  predicate AllDecode(t: Section, defs: map<string, Raw>) {
    forall m :: m in defs ==> Decodes(t, defs[m])
  }

  function RewriteRaw(t: Section, f: Namer, raw: Raw): (r: Option<Raw>)
    ensures r.Some? <==> Decodes(t, raw)
  {
    if t.Transports? || raw.Empty? then Some(raw)
    else if DecodeObject(raw).None? then None
    else Some(Doc(Rewrite(SchemaOf(t), f, raw.v)))
  }

  // ---------------------------------------------------------------------------------------------
  // The operations

  function SanitizeReference(san: Namer, name: string, mapping: map<string, string>): (r: string)
    requires MappingOf(san, mapping)
    ensures r == san(name)
  {
    if name in mapping then mapping[name] else san(name)
  }

  ghost predicate MappingOf(san: Namer, mapping: map<string, string>) {
    forall n :: n in mapping ==> mapping[n] == san(n)
  }

  method BuildNameMapping(san: Namer, defs: map<string, Raw>) returns (mapping: map<string, string>)
    ensures mapping.Keys == defs.Keys && MappingOf(san, mapping)
  {
    var keys := SortKeys(defs.Keys);
    mapping := map[];
    for i := 0 to |keys|
      invariant MappingOf(san, mapping)
      invariant forall n :: n in mapping <==> n in keys[..i]
    {
      mapping := mapping[keys[i] := san(keys[i])];
    }
    assert keys[..|keys|] == keys;
  }

  /** The loop over a list of names, overwriting each string in place. */
  method SanitizeNames(san: Namer, xs: seq<Json>, mapping: map<string, string>, t: Section) returns (ys: seq<Json>)
    requires MappingOf(san, mapping)
    ensures Arr(ys) == Rewrite(Items(Ref(t)), san, Arr(xs))
  {
    ys := xs;
    for i := 0 to |xs|
      invariant |ys| == |xs|
      invariant forall j :: 0 <= j < i ==> ys[j] == Rewrite(Ref(t), san, xs[j])
      invariant forall j :: i <= j < |xs| ==> ys[j] == xs[j]
    {
      if ys[i].Str? {
        ys := ys[i := Str(SanitizeReference(san, ys[i].s, mapping))];
      }
    }
    assert ys == seq(|xs|, i requires 0 <= i < |xs| => Rewrite(Ref(t), san, xs[i]));
  }

  /** The loop over weighted services or mirrors, overwriting the name of each entry that has one. */
  method SanitizeEntries(san: Namer, xs: seq<Json>, mapping: map<string, string>) returns (ys: seq<Json>)
    requires MappingOf(san, mapping)
    ensures Arr(ys) == Rewrite(ENTRIES, san, Arr(xs))
  {
    var entry := Fields(map["name" := Ref(Services)]);
    ys := xs;
    for i := 0 to |xs|
      invariant |ys| == |xs|
      invariant forall j :: 0 <= j < i ==> ys[j] == Rewrite(entry, san, xs[j])
      invariant forall j :: i <= j < |xs| ==> ys[j] == xs[j]
    {
      if ys[i].Obj? {
        var m := SetRef(san, ys[i].m, "name", mapping, Services);
        ys := ys[i := Obj(m)];
        assert m == (map k | k in xs[i].m :: if k in entry.fields then Rewrite(entry.fields[k], san, xs[i].m[k])
          else xs[i].m[k]);
      }
    }
    assert ys == seq(|xs|, i requires 0 <= i < |xs| => Rewrite(entry, san, xs[i]));
  }

  /** Rewriting by schema at one key only. */
  function RewriteAt(s: Schema, san: Namer, m: Object, k: string): Object {
    if k in m then m[k := Rewrite(s, san, m[k])] else m
  }

  method SetRef(san: Namer, m: Object, k: string, mapping: map<string, string>, t: Section) returns (out: Object)
    requires MappingOf(san, mapping)
    ensures out == RewriteAt(Ref(t), san, m, k)
  {
    out := if HasStr(m, k) then m[k := Str(SanitizeReference(san, m[k].s, mapping))] else m;
  }

  method SetNames(san: Namer, m: Object, k: string, mapping: map<string, string>) returns (out: Object)
    requires MappingOf(san, mapping)
    ensures out == RewriteAt(MIDDLEWARE_NAMES, san, m, k)
  {
    out := m;
    if HasArr(m, k) {
      var ys := SanitizeNames(san, m[k].xs, mapping, Middlewares);
      out := m[k := Arr(ys)];
    }
  }

  method SetEntries(san: Namer, m: Object, k: string, mapping: map<string, string>) returns (out: Object)
    requires MappingOf(san, mapping)
    ensures out == RewriteAt(ENTRIES, san, m, k)
  {
    out := m;
    if HasArr(m, k) {
      var ys := SanitizeEntries(san, m[k].xs, mapping);
      out := m[k := Arr(ys)];
    }
  }

  /** Rewriting by one more field is rewriting by the others and then at that key. */
  lemma AddField(san: Namer, fs: map<string, Schema>, k: string, s: Schema, m: Object)
    requires k !in fs
    ensures Rewrite(Fields(fs[k := s]), san, Obj(m)) == Obj(RewriteAt(s, san, Rewrite(Fields(fs), san, Obj(m)).m, k))
  {
    var fs' := fs[k := s];
    var out := RewriteAt(s, san, Rewrite(Fields(fs), san, Obj(m)).m, k);
    assert out == (map x | x in m :: if x in fs' then Rewrite(fs'[x], san, m[x]) else m[x]);
  }

  lemma NoField(san: Namer, m: Object)
    ensures Rewrite(Fields(map[]), san, Obj(m)) == Obj(m)
  {
    assert m == (map k | k in m :: m[k]);
  }

  lemma OneField(san: Namer, m: Object, k: string, s: Schema)
    ensures Rewrite(Fields(map[k := s]), san, Obj(m)) == Obj(RewriteAt(s, san, m, k))
  {
    NoField(san, m);
    AddField(san, map[], k, s, m);
    assert map[][k := s] == map[k := s];
  }

  lemma TwoFields(san: Namer, m: Object, k1: string, s1: Schema, k2: string, s2: Schema)
    requires k1 != k2
    ensures Rewrite(Fields(map[k1 := s1, k2 := s2]), san, Obj(m)) ==
            Obj(RewriteAt(s2, san, RewriteAt(s1, san, m, k1), k2))
  {
    OneField(san, m, k1, s1);
    AddField(san, map[k1 := s1], k2, s2, m);
    assert map[k1 := s1][k2 := s2] == map[k1 := s1, k2 := s2];
  }

  method SanitizeWeightedSection(san: Namer, obj: Object, services: map<string, string>) returns (out: Object)
    requires MappingOf(san, services)
    ensures out == RewriteAt(WEIGHTED, san, obj, "weighted")
  {
    out := obj;
    if HasObj(obj, "weighted") {
      var weighted := SetEntries(san, obj["weighted"].m, "services", services);
      OneField(san, obj["weighted"].m, "services", ENTRIES);
      out := obj["weighted" := Obj(weighted)];
    }
  }

  method SanitizeMirroringSection(san: Namer, obj: Object, services: map<string, string>) returns (out: Object)
    requires MappingOf(san, services)
    ensures out == RewriteAt(MIRRORING, san, obj, "mirroring")
  {
    out := obj;
    if HasObj(obj, "mirroring") {
      var mirroring := SetRef(san, obj["mirroring"].m, "service", services, Services);
      mirroring := SetEntries(san, mirroring, "mirrors", services);
      TwoFields(san, obj["mirroring"].m, "service", Ref(Services), "mirrors", ENTRIES);
      out := obj["mirroring" := Obj(mirroring)];
    }
  }

  method SanitizeFailoverSection(san: Namer, obj: Object, services: map<string, string>) returns (out: Object)
    requires MappingOf(san, services)
    ensures out == RewriteAt(FAILOVER, san, obj, "failover")
  {
    out := obj;
    if HasObj(obj, "failover") {
      var failover := SetRef(san, obj["failover"].m, "service", services, Services);
      failover := SetRef(san, failover, "fallback", services, Services);
      TwoFields(san, obj["failover"].m, "service", Ref(Services), "fallback", Ref(Services));
      out := obj["failover" := Obj(failover)];
    }
  }

  method SanitizeTransportReference(san: Namer, obj: Object, transports: map<string, string>) returns (out: Object)
    requires MappingOf(san, transports)
    ensures out == RewriteAt(LOAD_BALANCER, san, obj, "loadBalancer")
  {
    out := obj;
    if HasObj(obj, "loadBalancer") {
      var lb := SetRef(san, obj["loadBalancer"].m, "serversTransport", transports, Transports);
      OneField(san, obj["loadBalancer"].m, "serversTransport", Ref(Transports));
      out := obj["loadBalancer" := Obj(lb)];
    }
  }

  method SanitizeChain(san: Namer, obj: Object, middlewares: map<string, string>) returns (out: Object)
    requires MappingOf(san, middlewares)
    ensures out == RewriteAt(CHAIN, san, obj, "chain")
  {
    out := obj;
    if HasObj(obj, "chain") {
      var chain := SetNames(san, obj["chain"].m, "middlewares", middlewares);
      OneField(san, obj["chain"].m, "middlewares", MIDDLEWARE_NAMES);
      out := obj["chain" := Obj(chain)];
    }
  }

  datatype Mappings = Mappings(middlewares: map<string, string>, services: map<string, string>,
                               transports: map<string, string>)

  ghost predicate MappingsOf(san: Namer, ms: Mappings) {
    MappingOf(san, ms.middlewares) && MappingOf(san, ms.services) && MappingOf(san, ms.transports)
  }

  method SanitizeRouterRaw(san: Namer, raw: Raw, ms: Mappings) returns (r: Option<Raw>)
    requires MappingsOf(san, ms)
    ensures r == RewriteRaw(Routers, san, raw)
  {
    if raw.Empty? { return Some(raw); }
    var obj := DecodeObject(raw);
    if obj.None? { return None; }
    var out := SetRef(san, obj.value, "service", ms.services, Services);
    out := SetNames(san, out, "middlewares", ms.middlewares);
    TwoFields(san, obj.value, "service", Ref(Services), "middlewares", MIDDLEWARE_NAMES);
    r := Some(Doc(if raw.v.Null? then Null else Obj(out)));
  }

  method SanitizeMiddlewareRaw(san: Namer, raw: Raw, ms: Mappings) returns (r: Option<Raw>)
    requires MappingsOf(san, ms)
    ensures r == RewriteRaw(Middlewares, san, raw)
  {
    if raw.Empty? { return Some(raw); }
    var obj := DecodeObject(raw);
    if obj.None? { return None; }
    var out := SanitizeChain(san, obj.value, ms.middlewares);
    OneField(san, obj.value, "chain", CHAIN);
    r := Some(Doc(if raw.v.Null? then Null else Obj(out)));
  }

  method SanitizeServiceRaw(san: Namer, raw: Raw, ms: Mappings) returns (r: Option<Raw>)
    requires MappingsOf(san, ms)
    ensures r == RewriteRaw(Services, san, raw)
  {
    if raw.Empty? { return Some(raw); }
    var obj := DecodeObject(raw);
    if obj.None? { return None; }
    var out := SanitizeWeightedSection(san, obj.value, ms.services);
    out := SanitizeMirroringSection(san, out, ms.services);
    out := SanitizeFailoverSection(san, out, ms.services);
    out := SanitizeTransportReference(san, out, ms.transports);
    ServiceFields(san, obj.value);
    r := Some(Doc(if raw.v.Null? then Null else Obj(out)));
  }

  lemma ServiceFields(san: Namer, m: Object)
    ensures var m1 := RewriteAt(WEIGHTED, san, m, "weighted");
            var m2 := RewriteAt(MIRRORING, san, m1, "mirroring");
            var m3 := RewriteAt(FAILOVER, san, m2, "failover");
            Rewrite(SchemaOf(Services), san, Obj(m)) == Obj(RewriteAt(LOAD_BALANCER, san, m3, "loadBalancer"))
  {
    var fs := map["weighted" := WEIGHTED, "mirroring" := MIRRORING];
    TwoFields(san, m, "weighted", WEIGHTED, "mirroring", MIRRORING);
    AddField(san, fs, "failover", FAILOVER, m);
    AddField(san, fs["failover" := FAILOVER], "loadBalancer", LOAD_BALANCER, m);
    assert fs["failover" := FAILOVER]["loadBalancer" := LOAD_BALANCER] == SchemaOf(Services).fields;
  }

  // ---------------------------------------------------------------------------------------------
  // What is rewritten, field by field

  /** The same keys, and the same values but at the given ones. */
  predicate SameBut(m: Object, out: Object, ks: set<string>) {
    out.Keys == m.Keys && forall k :: k in m && k !in ks ==> out[k] == m[k]
  }

  lemma AtField(san: Namer, fs: map<string, Schema>, m: Object, k: string)
    requires k in m
    ensures var o := Rewrite(Fields(fs), san, Obj(m));
            && o.Obj? && o.m.Keys == m.Keys
            && o.m[k] == if k in fs then Rewrite(fs[k], san, m[k]) else m[k]
  {
  }

  lemma RestStays(san: Namer, fs: map<string, Schema>, m: Object)
    ensures var o := Rewrite(Fields(fs), san, Obj(m)); o.Obj? && SameBut(m, o.m, fs.Keys)
  {
  }

  lemma FieldRefs(fs: map<string, Schema>, m: Object, k: string, t: Section, n: string)
    requires k in fs && k in m && (t, n) in Refs(fs[k], m[k])
    ensures (t, n) in Refs(Fields(fs), Obj(m))
  {
  }

  /** The names of a list: each string is sanitised, and is a reference. */
  ghost predicate NamesRewritten(san: Namer, t: Section, v: Json, w: Json, refs: set<(Section, string)>) {
    if v.Arr? then
      && w.Arr? && |w.xs| == |v.xs|
      && forall i :: 0 <= i < |v.xs| ==>
           if v.xs[i].Str? then w.xs[i] == Str(san(v.xs[i].s)) && (t, v.xs[i].s) in refs else w.xs[i] == v.xs[i]
    else w == v
  }

  lemma NamesOfList(san: Namer, t: Section, v: Json)
    ensures NamesRewritten(san, t, v, Rewrite(Items(Ref(t)), san, v), Refs(Items(Ref(t)), v))
  {
    if v.Arr? {
      forall i | 0 <= i < |v.xs| && v.xs[i].Str? ensures (t, v.xs[i].s) in Refs(Items(Ref(t)), v) {
        assert (t, v.xs[i].s) in Refs(Ref(t), v.xs[i]);
      }
    }
  }

  /** The entries of a list: the name of each object that has one is sanitised, and is a reference. */
  ghost predicate EntriesRewritten(san: Namer, v: Json, w: Json, refs: set<(Section, string)>) {
    if v.Arr? then
      && w.Arr? && |w.xs| == |v.xs|
      && forall i :: 0 <= i < |v.xs| ==>
           if v.xs[i].Obj? && "name" in v.xs[i].m && v.xs[i].m["name"].Str? then
             && w.xs[i] == Obj(v.xs[i].m["name" := Str(san(v.xs[i].m["name"].s))])
             && (Services, v.xs[i].m["name"].s) in refs
           else w.xs[i] == v.xs[i]
    else w == v
  }

  lemma EntryRewritten(san: Namer, x: Json)
    ensures Rewrite(ENTRIES.item, san, x) ==
            if x.Obj? && HasStr(x.m, "name") then Obj(x.m["name" := Str(san(x.m["name"].s))]) else x
    ensures x.Obj? && HasStr(x.m, "name") ==> (Services, x.m["name"].s) in Refs(ENTRIES.item, x)
  {
    if x.Obj? {
      OneField(san, x.m, "name", Ref(Services));
      if "name" in x.m { assert x.m["name" := x.m["name"]] == x.m; }
      if HasStr(x.m, "name") { FieldRefs(ENTRIES.item.fields, x.m, "name", Services, x.m["name"].s); }
    }
  }

  lemma EntriesOfList(san: Namer, v: Json)
    ensures EntriesRewritten(san, v, Rewrite(ENTRIES, san, v), Refs(ENTRIES, v))
  {
    if v.Arr? {
      forall i | 0 <= i < |v.xs|
        ensures Rewrite(ENTRIES, san, v).xs[i] == Rewrite(ENTRIES.item, san, v.xs[i])
        ensures Refs(ENTRIES.item, v.xs[i]) <= Refs(ENTRIES, v)
      {
      }
      forall i | 0 <= i < |v.xs|
        ensures Rewrite(ENTRIES.item, san, v.xs[i]) ==
                if v.xs[i].Obj? && HasStr(v.xs[i].m, "name") then
                  Obj(v.xs[i].m["name" := Str(san(v.xs[i].m["name"].s))]) else v.xs[i]
        ensures v.xs[i].Obj? && HasStr(v.xs[i].m, "name") ==>
                  (Services, v.xs[i].m["name"].s) in Refs(ENTRIES.item, v.xs[i])
      {
        EntryRewritten(san, v.xs[i]);
      }
    }
  }

  /** A single name: a string is sanitised, and is a reference. */
  ghost predicate NameRewritten(san: Namer, t: Section, v: Json, w: Json, refs: set<(Section, string)>) {
    if v.Str? then w == Str(san(v.s)) && (t, v.s) in refs else w == v
  }

  /** Where the schemas put their references. */
  lemma RouterSchema()
    ensures var fs := SchemaOf(Routers).fields;
            fs.Keys == {"service", "middlewares"} && fs["service"] == Ref(Services)
              && fs["middlewares"] == Items(Ref(Middlewares))
  {
  }

  /** A router: its service and each of its middlewares. */
  lemma RouterFields(san: Namer, m: Object) returns (out: Object)
    ensures RewriteRaw(Routers, san, Doc(Obj(m))) == Some(Doc(Obj(out)))
    ensures SameBut(m, out, {"service", "middlewares"})
    ensures "service" in m ==>
              NameRewritten(san, Services, m["service"], out["service"], Refs(SchemaOf(Routers), Obj(m)))
    ensures "middlewares" in m ==>
              NamesRewritten(san, Middlewares, m["middlewares"], out["middlewares"], Refs(SchemaOf(Routers), Obj(m)))
  {
    var fs := SchemaOf(Routers).fields;
    out := Rewrite(Fields(fs), san, Obj(m)).m;
    RouterSchema();
    RestStays(san, fs, m);
    if "service" in m {
      AtField(san, fs, m, "service");
      RefsWithin(fs, m, "service");
    }
    if "middlewares" in m {
      AtField(san, fs, m, "middlewares");
      RefsWithin(fs, m, "middlewares");
      NamesOfList(san, Middlewares, m["middlewares"]);
    }
  }

  lemma RefsWithin(fs: map<string, Schema>, m: Object, k: string)
    requires k in fs && k in m
    ensures Refs(fs[k], m[k]) <= Refs(Fields(fs), Obj(m))
  {
  }

  /** A middleware: each name in its chain. */
  lemma MiddlewareFields(san: Namer, m: Object) returns (out: Object)
    ensures RewriteRaw(Middlewares, san, Doc(Obj(m))) == Some(Doc(Obj(out)))
    ensures SameBut(m, out, {"chain"})
    ensures "chain" in m && !m["chain"].Obj? ==> out["chain"] == m["chain"]
    ensures "chain" in m && m["chain"].Obj? ==>
              var c := m["chain"].m;
              && out["chain"].Obj? && SameBut(c, out["chain"].m, {"middlewares"})
              && ("middlewares" in c ==>
                    NamesRewritten(san, Middlewares, c["middlewares"], out["chain"].m["middlewares"],
                                   Refs(SchemaOf(Middlewares), Obj(m))))
  {
    var fs := SchemaOf(Middlewares).fields;
    out := Rewrite(Fields(fs), san, Obj(m)).m;
    RestStays(san, fs, m);
    if "chain" in m && m["chain"].Obj? {
      var c := m["chain"].m;
      AtField(san, fs, m, "chain");
      RefsWithin(fs, m, "chain");
      RestStays(san, CHAIN.fields, c);
      if "middlewares" in c {
        AtField(san, CHAIN.fields, c, "middlewares");
        RefsWithin(CHAIN.fields, c, "middlewares");
        NamesOfList(san, Middlewares, c["middlewares"]);
      }
    }
  }

  lemma ServiceSchema()
    ensures var fs := SchemaOf(Services).fields;
            && fs.Keys == {"weighted", "mirroring", "failover", "loadBalancer"}
            && fs["weighted"] == WEIGHTED && fs["mirroring"] == MIRRORING
            && fs["failover"] == FAILOVER && fs["loadBalancer"] == LOAD_BALANCER
  {
  }

  lemma SectionSchemas()
    ensures WEIGHTED.fields.Keys == {"services"} && WEIGHTED.fields["services"] == ENTRIES
    ensures MIRRORING.fields.Keys == {"service", "mirrors"}
    ensures MIRRORING.fields["service"] == Ref(Services) && MIRRORING.fields["mirrors"] == ENTRIES
    ensures FAILOVER.fields.Keys == {"service", "fallback"}
    ensures FAILOVER.fields["service"] == Ref(Services) && FAILOVER.fields["fallback"] == Ref(Services)
    ensures LOAD_BALANCER.fields.Keys == {"serversTransport"}
            && LOAD_BALANCER.fields["serversTransport"] == Ref(Transports)
  {
  }

  /** One section of a service is rewritten by its own schema, and what it refers to the service refers to. */
  lemma ServiceSection(san: Namer, m: Object, section: string, inner: map<string, Schema>)
    requires section in SchemaOf(Services).fields && SchemaOf(Services).fields[section] == Fields(inner)
    requires section in m && m[section].Obj?
    ensures var out := Rewrite(SchemaOf(Services), san, Obj(m)).m;
            && out.Keys == m.Keys && out[section].Obj? && out[section] == Rewrite(Fields(inner), san, m[section])
            && SameBut(m[section].m, out[section].m, inner.Keys)
    ensures Refs(Fields(inner), m[section]) <= Refs(SchemaOf(Services), Obj(m))
  {
    AtField(san, SchemaOf(Services).fields, m, section);
    RefsWithin(SchemaOf(Services).fields, m, section);
    RestStays(san, inner, m[section].m);
  }

  /** One key of a section. */
  lemma SectionKey(san: Namer, m: Object, section: string, inner: map<string, Schema>, k: string)
    requires section in SchemaOf(Services).fields && SchemaOf(Services).fields[section] == Fields(inner)
    requires section in m && m[section].Obj? && k in m[section].m && k in inner
    ensures var out := Rewrite(SchemaOf(Services), san, Obj(m)).m;
            section in out && out[section].Obj? && k in out[section].m
              && out[section].m[k] == Rewrite(inner[k], san, m[section].m[k])
    ensures Refs(inner[k], m[section].m[k]) <= Refs(SchemaOf(Services), Obj(m))
  {
    ServiceSection(san, m, section, inner);
    AtField(san, inner, m[section].m, k);
    RefsWithin(inner, m[section].m, k);
  }

  /** The weighted section of a service: the name of each of its services. */
  lemma WeightedFields(san: Namer, m: Object) returns (out: Object)
    requires "weighted" in m && m["weighted"].Obj?
    ensures RewriteRaw(Services, san, Doc(Obj(m))) == Some(Doc(Obj(out)))
    ensures "weighted" in out && out["weighted"].Obj? && SameBut(m["weighted"].m, out["weighted"].m, {"services"})
    ensures "services" in m["weighted"].m ==>
              EntriesRewritten(san, m["weighted"].m["services"], out["weighted"].m["services"],
                Refs(SchemaOf(Services), Obj(m)))
  {
    out := Rewrite(SchemaOf(Services), san, Obj(m)).m;
    ServiceSchema();
    SectionSchemas();
    ServiceSection(san, m, "weighted", WEIGHTED.fields);
    if "services" in m["weighted"].m {
      SectionKey(san, m, "weighted", WEIGHTED.fields, "services");
      EntriesOfList(san, m["weighted"].m["services"]);
    }
  }

  /** The mirroring section: the primary service and the name of each mirror. */
  lemma MirroringFields(san: Namer, m: Object) returns (out: Object)
    requires "mirroring" in m && m["mirroring"].Obj?
    ensures RewriteRaw(Services, san, Doc(Obj(m))) == Some(Doc(Obj(out)))
    ensures "mirroring" in out && out["mirroring"].Obj? && SameBut(m["mirroring"].m, out["mirroring"].m,
            {"service", "mirrors"})
    ensures "service" in m["mirroring"].m ==>
              NameRewritten(san, Services, m["mirroring"].m["service"], out["mirroring"].m["service"],
                            Refs(SchemaOf(Services), Obj(m)))
    ensures "mirrors" in m["mirroring"].m ==>
              EntriesRewritten(san, m["mirroring"].m["mirrors"], out["mirroring"].m["mirrors"],
                Refs(SchemaOf(Services), Obj(m)))
  {
    out := Rewrite(SchemaOf(Services), san, Obj(m)).m;
    ServiceSchema();
    SectionSchemas();
    ServiceSection(san, m, "mirroring", MIRRORING.fields);
    if "service" in m["mirroring"].m { SectionKey(san, m, "mirroring", MIRRORING.fields, "service"); }
    if "mirrors" in m["mirroring"].m {
      SectionKey(san, m, "mirroring", MIRRORING.fields, "mirrors");
      EntriesOfList(san, m["mirroring"].m["mirrors"]);
    }
  }

  /** The failover section: the service and its fallback. */
  lemma FailoverFields(san: Namer, m: Object) returns (out: Object)
    requires "failover" in m && m["failover"].Obj?
    ensures RewriteRaw(Services, san, Doc(Obj(m))) == Some(Doc(Obj(out)))
    ensures "failover" in out && out["failover"].Obj? && SameBut(m["failover"].m, out["failover"].m,
            {"service", "fallback"})
    ensures "service" in m["failover"].m ==>
              NameRewritten(san, Services, m["failover"].m["service"], out["failover"].m["service"],
                            Refs(SchemaOf(Services), Obj(m)))
    ensures "fallback" in m["failover"].m ==>
              NameRewritten(san, Services, m["failover"].m["fallback"], out["failover"].m["fallback"],
                            Refs(SchemaOf(Services), Obj(m)))
  {
    out := Rewrite(SchemaOf(Services), san, Obj(m)).m;
    ServiceSchema();
    SectionSchemas();
    ServiceSection(san, m, "failover", FAILOVER.fields);
    if "service" in m["failover"].m { SectionKey(san, m, "failover", FAILOVER.fields, "service"); }
    if "fallback" in m["failover"].m { SectionKey(san, m, "failover", FAILOVER.fields, "fallback"); }
  }

  /** A load balancer: its servers transport. */
  lemma LoadBalancerFields(san: Namer, m: Object) returns (out: Object)
    requires "loadBalancer" in m && m["loadBalancer"].Obj?
    ensures RewriteRaw(Services, san, Doc(Obj(m))) == Some(Doc(Obj(out)))
    ensures "loadBalancer" in out && out["loadBalancer"].Obj?
    ensures SameBut(m["loadBalancer"].m, out["loadBalancer"].m, {"serversTransport"})
    ensures "serversTransport" in m["loadBalancer"].m ==>
              NameRewritten(san, Transports, m["loadBalancer"].m["serversTransport"],
                out["loadBalancer"].m["serversTransport"],
                            Refs(SchemaOf(Services), Obj(m)))
  {
    out := Rewrite(SchemaOf(Services), san, Obj(m)).m;
    ServiceSchema();
    SectionSchemas();
    ServiceSection(san, m, "loadBalancer", LOAD_BALANCER.fields);
    if "serversTransport" in m["loadBalancer"].m { SectionKey(san, m, "loadBalancer", LOAD_BALANCER.fields,
      "serversTransport"); }
  }

  /** And nothing else of a service changes. */
  lemma ServiceRest(san: Namer, m: Object) returns (out: Object)
    ensures RewriteRaw(Services, san, Doc(Obj(m))) == Some(Doc(Obj(out)))
    ensures SameBut(m, out, {"weighted", "mirroring", "failover", "loadBalancer"})
    ensures forall s :: s in m && !m[s].Obj? ==> out[s] == m[s]
  {
    out := Rewrite(SchemaOf(Services), san, Obj(m)).m;
    ServiceSchema();
    RestStays(san, SchemaOf(Services).fields, m);
    forall s | s in m && !m[s].Obj? ensures out[s] == m[s] { AtField(san, SchemaOf(Services).fields, m, s); }
  }

  /** What does not decode fails, and what is empty or a servers transport is passed on. */
  lemma UntouchedMessages(san: Namer, t: Section, raw: Raw)
    ensures RewriteRaw(t, san, raw).None? <==>
              !t.Transports? && !raw.Empty? && !(raw.Doc? && (raw.v.Obj? || raw.v.Null?))
    ensures t.Transports? || raw.Empty? || raw == Doc(Null) ==> RewriteRaw(t, san, raw) == Some(raw)
  {
  }

  // ---------------------------------------------------------------------------------------------
  // Whole sections

  /** `m` is the lexicographically greatest definition whose sanitised name is `n`. */
  ghost predicate Wins(san: Namer, defs: map<string, Raw>, n: string, m: string) {
    && m in defs && san(m) == n
    && forall k :: k in defs && san(k) == n ==> LexLeq(k, m)
  }

  /** Every definition has its image, and each image is that of the winner of its name. */
  ghost predicate Renamed(san: Namer, t: Section, defs: map<string, Raw>, out: map<string, Raw>) {
    && (forall m :: m in defs ==> san(m) in out)
    && forall n :: n in out ==> exists m :: Wins(san, defs, n, m) && RewriteRaw(t, san, defs[m]) == Some(out[n])
  }

  method SanitizeRaw(san: Namer, t: Section, raw: Raw, ms: Mappings) returns (r: Option<Raw>)
    requires MappingsOf(san, ms)
    ensures r == RewriteRaw(t, san, raw)
  {
    match t
    case Routers => r := SanitizeRouterRaw(san, raw, ms);
    case Middlewares => r := SanitizeMiddlewareRaw(san, raw, ms);
    case Services => r := SanitizeServiceRaw(san, raw, ms);
    case Transports => r := Some(raw);
  }

  /** The populate loops: visit the names in order, let a later one overwrite an earlier image. */
  method Populate(san: Namer, t: Section, defs: map<string, Raw>, ms: Mappings) returns (r: Option<map<string, Raw>>)
    requires MappingsOf(san, ms)
    ensures r.Some? <==> AllDecode(t, defs)
    ensures r.Some? ==> Renamed(san, t, defs, r.value)
  {
    var keys := SortKeys(defs.Keys);
    var out: map<string, Raw> := map[];
    for i := 0 to |keys|
      invariant Images(san, t, defs, keys, i, out)
    {
      var raw := SanitizeRaw(san, t, defs[keys[i]], ms);
      if raw.None? { return None; }
      ImagesStep(san, t, defs, keys, i, out, raw.value);
      out := out[san(keys[i]) := raw.value];
    }
    WinnersOfSorted(san, t, defs, keys, out);
    r := Some(out);
  }

  /** Among the first `i` keys, the last one renamed to `n` stands at `j`. */
  ghost predicate LastImage(san: Namer, keys: seq<string>, i: nat, n: string, j: int) {
    && 0 <= j < i <= |keys| && san(keys[j]) == n
    && forall k :: j < k < i ==> san(keys[k]) != n
  }

  /** What the populate loop has written after `i` keys. */
  ghost predicate Images(san: Namer, t: Section, defs: map<string, Raw>, keys: seq<string>, i: nat,
                         out: map<string, Raw>)
  {
    && i <= |keys|
    && (forall j :: 0 <= j < i ==> keys[j] in defs && Decodes(t, defs[keys[j]]) && san(keys[j]) in out)
    && forall n :: n in out ==>
      exists j :: LastImage(san, keys, i, n, j) && RewriteRaw(t, san, defs[keys[j]]) == Some(out[n])
  }

  lemma ImagesStep(san: Namer, t: Section, defs: map<string, Raw>, keys: seq<string>, i: nat, out: map<string, Raw>,
                   raw: Raw)
    requires i < |keys| && keys[i] in defs && Images(san, t, defs, keys, i, out)
    requires RewriteRaw(t, san, defs[keys[i]]) == Some(raw)
    ensures Images(san, t, defs, keys, i + 1, out[san(keys[i]) := raw])
  {
    var out' := out[san(keys[i]) := raw];
    forall n | n in out'
      ensures exists j :: LastImage(san, keys, i + 1, n, j) && RewriteRaw(t, san, defs[keys[j]]) == Some(out'[n])
    {
      if n == san(keys[i]) {
        assert LastImage(san, keys, i + 1, n, i);
      } else {
        var j :| LastImage(san, keys, i, n, j) && RewriteRaw(t, san, defs[keys[j]]) == Some(out[n]);
        assert LastImage(san, keys, i + 1, n, j);
      }
    }
  }

  lemma LastIsGreatest(san: Namer, defs: map<string, Raw>, keys: seq<string>, n: string, j: int)
    requires Sorted(keys) && Enumerates(keys, defs.Keys)
    requires LastImage(san, keys, |keys|, n, j)
    ensures Wins(san, defs, n, keys[j])
  {
    forall k | k in defs && san(k) == n ensures LexLeq(k, keys[j]) {
      var i :| 0 <= i < |keys| && keys[i] == k;
      LexTotal(k, k);
    }
  }

  lemma WinnersOfSorted(san: Namer, t: Section, defs: map<string, Raw>, keys: seq<string>, out: map<string, Raw>)
    requires Sorted(keys) && Enumerates(keys, defs.Keys)
    requires Images(san, t, defs, keys, |keys|, out)
    ensures Renamed(san, t, defs, out) && AllDecode(t, defs)
  {
    forall m | m in defs ensures san(m) in out && Decodes(t, defs[m]) {
      var j :| 0 <= j < |keys| && keys[j] == m;
    }
    forall n | n in out ensures exists m :: Wins(san, defs, n, m) && RewriteRaw(t, san, defs[m]) == Some(out[n]) {
      var j :| LastImage(san, keys, |keys|, n, j) && RewriteRaw(t, san, defs[keys[j]]) == Some(out[n]);
      LastIsGreatest(san, defs, keys, n, j);
    }
  }

  ghost predicate RenamedConfig(san: Namer, cfg: Config, out: Config) {
    && Renamed(san, Middlewares, cfg.middlewares, out.middlewares)
    && Renamed(san, Routers, cfg.routers, out.routers)
    && Renamed(san, Services, cfg.services, out.services)
    && Renamed(san, Transports, cfg.transports, out.transports)
  }

  method SanitizeConfig(san: Namer, cfg: Config) returns (r: Option<Config>)
    ensures r.Some? <==>
              AllDecode(Middlewares, cfg.middlewares) && AllDecode(Services, cfg.services)
                && AllDecode(Routers, cfg.routers)
    ensures r.Some? ==> RenamedConfig(san, cfg, r.value)
    ensures r == Sanitized(san, cfg)
  {
    var mm := BuildNameMapping(san, cfg.middlewares);
    var sm := BuildNameMapping(san, cfg.services);
    var tm := BuildNameMapping(san, cfg.transports);
    var ms := Mappings(mm, sm, tm);
    var mids := Populate(san, Middlewares, cfg.middlewares, ms);
    if mids.None? { return None; }
    var svcs := Populate(san, Services, cfg.services, ms);
    if svcs.None? { return None; }
    var sts := Populate(san, Transports, cfg.transports, ms);
    var rts := Populate(san, Routers, cfg.routers, ms);
    if rts.None? { return None; }
    r := Some(Config(mids.value, rts.value, svcs.value, sts.value));
    SanitizedIsRenamed(san, cfg, r.value);
  }

  // ---------------------------------------------------------------------------------------------
  // What a configuration means

  /** A document with its references followed instead of named; `Cut` marks the unfolding depth. */
  datatype Tree =
    | Atom(v: Json)
    | List(items: seq<Tree>)
    | Record(members: map<string, Tree>)
    | Link(to: Section, target: Tree)
    | Blank
    | Dangling(missing: Section)
    | Cut

  type Lookup = (Section, string) -> Option<Raw>

  /** Unfold `v` along its schema, following at most `d` references on any path. */
  function Meaning(lookup: Lookup, s: Schema, v: Json, d: nat): Tree
    decreases d, s
  {
    match (s, v)
    case (Ref(t), Str(n)) =>
      if d == 0 then Cut
      else
        (match lookup(t, n)
         case None => Dangling(t)
         case Some(raw) => Link(t, if raw.Doc? then Meaning(lookup, SchemaOf(t), raw.v, d - 1) else Blank))
    case (Items(e), Arr(xs)) => List(seq(|xs|, i requires 0 <= i < |xs| => Meaning(lookup, e, xs[i], d)))
    case (Fields(fs), Obj(m)) => Record(map k | k in m :: if k in fs then Meaning(lookup, fs[k], m[k], d)
      else Atom(m[k]))
    case _ => Atom(v)
  }

  /** Plain lookup in a configuration. */
  function Find(cfg: Config, t: Section, n: string): Option<Raw> {
    if n in Defs(cfg, t) then Some(Defs(cfg, t)[n]) else None
  }

  /**
    The unfolding keeps what it should: references with the same meaning are both dangling, or lead to
    documents with the same meaning one step less deep; and what is no reference is kept as it is.
   */
  lemma MeaningFollows(l1: Lookup, l2: Lookup, t: Section, a: string, b: string, d: nat)
    requires Meaning(l1, Ref(t), Str(a), d + 1) == Meaning(l2, Ref(t), Str(b), d + 1)
    ensures l1(t, a).Some? <==> l2(t, b).Some?
    ensures l1(t, a).Some? ==> (l1(t, a).value.Doc? <==> l2(t, b).value.Doc?)
    ensures l1(t, a).Some? && l1(t, a).value.Doc? && l2(t, b).value.Doc? ==>
              Meaning(l1, SchemaOf(t), l1(t, a).value.v, d) == Meaning(l2, SchemaOf(t), l2(t, b).value.v, d)
  {
    if l1(t, a).Some? && l1(t, a).value.Doc? { DocIsNotBlank(l1, t, a, d); }
    if l2(t, b).Some? && l2(t, b).value.Doc? { DocIsNotBlank(l2, t, b, d); }
  }

  lemma DocIsNotBlank(l: Lookup, t: Section, n: string, d: nat)
    requires l(t, n).Some? && l(t, n).value.Doc?
    ensures Meaning(l, SchemaOf(t), l(t, n).value.v, d) != Blank
  {
  }

  lemma MeaningKeeps(l1: Lookup, l2: Lookup, fs: map<string, Schema>, m: Object, n: Object, d: nat)
    requires Meaning(l1, Fields(fs), Obj(m), d) == Meaning(l2, Fields(fs), Obj(n), d)
    ensures m.Keys == n.Keys
    ensures forall k :: k in m && k !in fs ==> m[k] == n[k]
    ensures forall k :: k in m && k in fs ==> Meaning(l1, fs[k], m[k], d) == Meaning(l2, fs[k], n[k], d)
  {
    var rm, rn := Meaning(l1, Fields(fs), Obj(m), d).members, Meaning(l2, Fields(fs), Obj(n), d).members;
    assert rm.Keys == m.Keys && rn.Keys == n.Keys;
    forall k | k in m ensures rm[k] == rn[k] {}
  }

  lemma MeaningOfLists(l1: Lookup, l2: Lookup, e: Schema, xs: seq<Json>, ys: seq<Json>, d: nat)
    requires Meaning(l1, Items(e), Arr(xs), d) == Meaning(l2, Items(e), Arr(ys), d)
    ensures |xs| == |ys| && forall i :: 0 <= i < |xs| ==> Meaning(l1, e, xs[i], d) == Meaning(l2, e, ys[i], d)
  {
    var rx, ry := Meaning(l1, Items(e), Arr(xs), d).items, Meaning(l2, Items(e), Arr(ys), d).items;
    assert |rx| == |xs| && |ry| == |ys|;
    forall i | 0 <= i < |xs| ensures Meaning(l1, e, xs[i], d) == Meaning(l2, e, ys[i], d) {
      assert rx[i] == ry[i];
    }
  }

  /** The document of the greatest definition whose sanitised name is `n`. */
  ghost function WinnerIn(san: Namer, defs: map<string, Raw>, n: string): Option<Raw> {
    if exists m :: Wins(san, defs, n, m) then var m :| Wins(san, defs, n, m); Some(defs[m]) else None
  }

  /** Lookup up to renaming: the greatest definition that shares the sanitised name. */
  ghost function FindWinner(san: Namer, cfg: Config, t: Section, n: string): Option<Raw> {
    WinnerIn(san, Defs(cfg, t), san(n))
  }

  lemma WinnerInIs(san: Namer, defs: map<string, Raw>, n: string, m: string)
    requires Wins(san, defs, n, m)
    ensures WinnerIn(san, defs, n) == Some(defs[m])
  {
    forall k | Wins(san, defs, n, k) ensures k == m { LexTotal(k, m); }
  }

  lemma ImageOfWinner(san: Namer, t: Section, defs: map<string, Raw>, out: map<string, Raw>, n: string)
    requires Renamed(san, t, defs, out)
    ensures n in out <==> WinnerIn(san, defs, n).Some?
    ensures n in out ==> RewriteRaw(t, san, WinnerIn(san, defs, n).value) == Some(out[n])
    ensures n in out ==> exists m :: m in defs && san(m) == n
  {
    if n in out {
      var m :| Wins(san, defs, n, m) && RewriteRaw(t, san, defs[m]) == Some(out[n]);
      WinnerInIs(san, defs, n, m);
    }
  }

  /** The sanitised name finds the rewritten winner, and finds nothing exactly when there is none. */
  lemma FoundIsRewrittenWinner(san: Namer, cfg: Config, out: Config, t: Section, n: string)
    requires RenamedConfig(san, cfg, out)
    ensures Simulates(san, (t', n') => FindWinner(san, cfg, t', n'), (t', n') => Find(out, t', n'), t, n)
  {
    ImageOfWinner(san, t, Defs(cfg, t), Defs(out, t), san(n));
  }

  /** Looking up a name before, or its image after, gives a document and its rewriting. */
  ghost predicate Simulates(san: Namer, before: Lookup, after: Lookup, t: Section, n: string) {
    match before(t, n)
    case None => after(t, san(n)).None?
    case Some(raw) => after(t, san(n)).Some? && RewriteRaw(t, san, raw) == after(t, san(n))
  }

  lemma {:induction false} SimulationPreservesMeaning(san: Namer, before: Lookup, after: Lookup, s: Schema, v: Json,
      d: nat)
    requires forall t, n :: Simulates(san, before, after, t, n)
    ensures Meaning(after, s, Rewrite(s, san, v), d) == Meaning(before, s, v, d)
    decreases d, s
  {
    match (s, v) {
      case (Ref(t), Str(n)) =>
        if d > 0 {
          assert Simulates(san, before, after, t, n);
          var w := before(t, n);
          if w.Some? && w.value.Doc? && !t.Transports? {
            SimulationPreservesMeaning(san, before, after, SchemaOf(t), w.value.v, d - 1);
          }
        }
      case (Items(e), Arr(xs)) =>
        forall i | 0 <= i < |xs| ensures Meaning(after, e, Rewrite(e, san, xs[i]), d) == Meaning(before, e, xs[i], d) {
          SimulationPreservesMeaning(san, before, after, e, xs[i], d);
        }
      case (Fields(fs), Obj(m)) =>
        forall k | k in m && k in fs
          ensures Meaning(after, fs[k], Rewrite(fs[k], san, m[k]), d) == Meaning(before, fs[k], m[k], d)
        {
          SimulationPreservesMeaning(san, before, after, fs[k], m[k], d);
        }
      case _ =>
    }
  }

  /**
    Renaming preserves meaning, without any condition: at every depth the rewritten document unfolds
    in the output exactly as the original does in the input, once a reference is read as "the greatest
    definition that shares its sanitised name".
   */
  lemma RenamingPreservesMeaning(san: Namer, cfg: Config, out: Config, s: Schema, v: Json, d: nat)
    requires RenamedConfig(san, cfg, out)
    ensures Meaning((t, n) => Find(out, t, n), s, Rewrite(s, san, v), d) ==
            Meaning((t, n) => FindWinner(san, cfg, t, n), s, v, d)
  {
    var before: Lookup := (t, n) => FindWinner(san, cfg, t, n);
    var after: Lookup := (t, n) => Find(out, t, n);
    forall t, n ensures Simulates(san, before, after, t, n) {
      FoundIsRewrittenWinner(san, cfg, out, t, n);
    }
    SimulationPreservesMeaning(san, before, after, s, v, d);
  }

  // ---------------------------------------------------------------------------------------------
  // When names do not collide

  /** The references of a document. */
  function Refs(s: Schema, v: Json): set<(Section, string)>
    decreases s
  {
    match (s, v)
    case (Ref(t), Str(n)) => {(t, n)}
    case (Items(e), Arr(xs)) => set i, r | 0 <= i < |xs| && r in Refs(e, xs[i]) :: r
    case (Fields(fs), Obj(m)) => set k, r | k in m && k in fs && r in Refs(fs[k], m[k]) :: r
    case _ => {}
  }

  /** A name occurs when it is defined, or when some definition refers to it. */
  ghost predicate Occurs(cfg: Config, t: Section, n: string) {
    || n in Defs(cfg, t)
    || exists t', m :: m in Defs(cfg, t') && Defs(cfg, t')[m].Doc? && (t, n) in Refs(SchemaOf(t'), Defs(cfg, t')[m].v)
  }

  /** No definition shares its sanitised name with another name that occurs. */
  ghost predicate NoCollision(san: Namer, cfg: Config) {
    forall t, m, n :: m in Defs(cfg, t) && Occurs(cfg, t, n) && san(m) == san(n) ==> m == n
  }

  /** Names that the sanitiser leaves alone never collide. */
  lemma FixedNamesDoNotCollide(san: Namer, cfg: Config)
    requires forall t, n :: Occurs(cfg, t, n) ==> san(n) == n
    ensures NoCollision(san, cfg)
  {
    forall t, m, n | m in Defs(cfg, t) && Occurs(cfg, t, n) && san(m) == san(n) ensures m == n {
      assert Occurs(cfg, t, m);
    }
  }

  lemma WinnerIsSelf(san: Namer, cfg: Config, t: Section, n: string)
    requires NoCollision(san, cfg) && Occurs(cfg, t, n)
    ensures FindWinner(san, cfg, t, n) == Find(cfg, t, n)
  {
    if n in Defs(cfg, t) {
      LexTotal(n, n);
      assert Wins(san, Defs(cfg, t), san(n), n);
      WinnerInIs(san, Defs(cfg, t), san(n), n);
    }
  }

  lemma {:induction false} AgreeingLookups(cfg: Config, l1: Lookup, s: Schema, v: Json, d: nat)
    requires forall t, n :: Occurs(cfg, t, n) ==> l1(t, n) == Find(cfg, t, n)
    requires forall t, n :: (t, n) in Refs(s, v) ==> Occurs(cfg, t, n)
    ensures Meaning(l1, s, v, d) == Meaning((t, n) => Find(cfg, t, n), s, v, d)
    decreases d, s
  {
    var l2: Lookup := (t, n) => Find(cfg, t, n);
    match (s, v) {
      case (Ref(t), Str(n)) =>
        if d > 0 {
          assert (t, n) in Refs(s, v);
          var w := l2(t, n);
          if w.Some? && w.value.Doc? { AgreeingLookups(cfg, l1, SchemaOf(t), w.value.v, d - 1); }
        }
      case (Items(e), Arr(xs)) =>
        forall i | 0 <= i < |xs| ensures Meaning(l1, e, xs[i], d) == Meaning(l2, e, xs[i], d) {
          assert Refs(e, xs[i]) <= Refs(s, v);
          AgreeingLookups(cfg, l1, e, xs[i], d);
        }
      case (Fields(fs), Obj(m)) =>
        forall k | k in m && k in fs ensures Meaning(l1, fs[k], m[k], d) == Meaning(l2, fs[k], m[k], d) {
          assert Refs(fs[k], m[k]) <= Refs(s, v);
          AgreeingLookups(cfg, l1, fs[k], m[k], d);
        }
      case _ =>
    }
  }

  lemma WinnersMeanThemselves(san: Namer, cfg: Config, t: Section, n: string, d: nat)
    requires NoCollision(san, cfg)
    requires n in Defs(cfg, t) && Defs(cfg, t)[n].Doc?
    ensures var v := Defs(cfg, t)[n].v;
            Meaning((t', n') => FindWinner(san, cfg, t', n'), SchemaOf(t), v, d) ==
              Meaning((t', n') => Find(cfg, t', n'), SchemaOf(t), v, d)
  {
    var v := Defs(cfg, t)[n].v;
    forall t', n' | (t', n') in Refs(SchemaOf(t), v) ensures Occurs(cfg, t', n') { assert n in Defs(cfg, t); }
    forall t', n' | Occurs(cfg, t', n')
      ensures FindWinner(san, cfg, t', n') == Find(cfg, t', n')
    {
      WinnerIsSelf(san, cfg, t', n');
    }
    AgreeingLookups(cfg, (t', n') => FindWinner(san, cfg, t', n'), SchemaOf(t), v, d);
  }

  /** Without collisions every router, service and middleware means after renaming what it meant before. */
  lemma RenamedMeansTheSame(san: Namer, cfg: Config, out: Config, t: Section, n: string, d: nat)
    requires RenamedConfig(san, cfg, out) && NoCollision(san, cfg)
    requires n in Defs(cfg, t)
    ensures san(n) in Defs(out, t)
    ensures var raw, image := Defs(cfg, t)[n], Defs(out, t)[san(n)];
            && (raw.Doc? <==> image.Doc?)
            && (raw.Doc? ==> Meaning((t', n') => Find(out, t', n'), SchemaOf(t), image.v, d) ==
                               Meaning((t', n') => Find(cfg, t', n'), SchemaOf(t), raw.v, d))
  {
    FoundIsRewrittenWinner(san, cfg, out, t, n);
    WinnerIsSelf(san, cfg, t, n);
    var raw := Defs(cfg, t)[n];
    if raw.Doc? {
      RenamingPreservesMeaning(san, cfg, out, SchemaOf(t), raw.v, d);
      WinnersMeanThemselves(san, cfg, t, n, d);
    }
  }

  // ---------------------------------------------------------------------------------------------
  // The sanitised configuration as a function

  ghost function RenameSection(san: Namer, t: Section, defs: map<string, Raw>): map<string, Raw> {
    map n | n in NamesOf(san, defs) && ImageIn(san, t, defs, n).Some? :: ImageIn(san, t, defs, n).value
  }

  ghost function NamesOf(san: Namer, defs: map<string, Raw>): set<string> {
    set m | m in defs :: san(m)
  }

  ghost function ImageIn(san: Namer, t: Section, defs: map<string, Raw>, n: string): Option<Raw> {
    match WinnerIn(san, defs, n)
    case None => None
    case Some(raw) => RewriteRaw(t, san, raw)
  }

  ghost function Sanitized(san: Namer, cfg: Config): Option<Config> {
    if AllDecode(Middlewares, cfg.middlewares) && AllDecode(Services, cfg.services)
      && AllDecode(Routers, cfg.routers) then
      Some(Config(RenameSection(san, Middlewares, cfg.middlewares), RenameSection(san, Routers, cfg.routers),
                  RenameSection(san, Services, cfg.services), RenameSection(san, Transports, cfg.transports)))
    else None
  }

  ghost predicate SameAt(san: Namer, t: Section, defs: map<string, Raw>, out: map<string, Raw>, n: string) {
    var r := RenameSection(san, t, defs);
    (n in out <==> n in r) && (n in out ==> out[n] == r[n])
  }

  lemma RenamedIsSameAt(san: Namer, t: Section, defs: map<string, Raw>, out: map<string, Raw>, n: string)
    requires Renamed(san, t, defs, out)
    ensures SameAt(san, t, defs, out, n)
  {
    ImageOfWinner(san, t, defs, out, n);
    if n in out {
      var m :| m in defs && san(m) == n;
      assert n in NamesOf(san, defs);
      assert ImageIn(san, t, defs, n) == Some(out[n]);
    }
  }

  /** Being the renaming of a section leaves no choice. */
  lemma RenamedIsUnique(san: Namer, t: Section, defs: map<string, Raw>, out: map<string, Raw>)
    requires Renamed(san, t, defs, out)
    ensures out == RenameSection(san, t, defs)
  {
    forall n ensures SameAt(san, t, defs, out, n) { RenamedIsSameAt(san, t, defs, out, n); }
    SameEverywhere(san, t, defs, out);
  }

  lemma SameEverywhere(san: Namer, t: Section, defs: map<string, Raw>, out: map<string, Raw>)
    requires forall n :: SameAt(san, t, defs, out, n)
    ensures out == RenameSection(san, t, defs)
  {
    var r := RenameSection(san, t, defs);
    forall n ensures (n in out <==> n in r) && (n in out ==> out[n] == r[n]) { assert SameAt(san, t, defs, out, n); }
    assert out.Keys == r.Keys;
  }

  lemma SanitizedIsRenamed(san: Namer, cfg: Config, out: Config)
    requires RenamedConfig(san, cfg, out)
    requires AllDecode(Middlewares, cfg.middlewares) && AllDecode(Services, cfg.services)
             && AllDecode(Routers, cfg.routers)
    ensures Sanitized(san, cfg) == Some(out)
  {
    RenamedIsUnique(san, Middlewares, cfg.middlewares, out.middlewares);
    RenamedIsUnique(san, Routers, cfg.routers, out.routers);
    RenamedIsUnique(san, Services, cfg.services, out.services);
    RenamedIsUnique(san, Transports, cfg.transports, out.transports);
  }
}
