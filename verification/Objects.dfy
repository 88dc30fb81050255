/**
  Objects in the cluster and the metadata the controller writes on them
  (internal/apply/metadata.go, internal/apply/unstructured.go, internal/apply/ingressroute.go).

  Server-Side Apply is taken as an overlay: the emitted labels and annotations replace or extend the
  existing ones key by key, and the spec is written.
 */
module Objects {
  import opened Results
  import opened JsonValues
  import opened StringMaps

  datatype Kind =
    | Middleware | IngressRoute | TraefikService | ServersTransport
    | IngressRouteTCP | IngressRouteUDP | ServersTransportTCP
    | CoreService | EndpointSlice | OtherKind

  datatype KubeObject = KubeObject(labels: StringMap, annotations: StringMap, spec: Json)

  datatype MetadataConfig = MetadataConfig(
    labelKey: string, labelValue: string,
    instanceKey: string, instanceValue: string,
    annoKey: string, annoValue: string,
    ingressClass: string)

  const INGRESS_CLASS := "traefikconfig.ingress.kubernetes.io/router.ingressclass"
  const ENTRY_POINTS := "traefikconfig.ingress.kubernetes.io/router.entrypoints"

  /** What is to be written for one name: a spec, and the entry points annotation unless it is empty. */
  datatype Desired = Desired(spec: Json, entryPoints: string)

  // ---------------------------------------------------------------------------------------------
  // Emitting metadata

  /** The wanted fields that the object does not have already. */
  function Missing(existing: StringMap, wanted: StringMap): StringMap {
    map k | k in wanted && !(k in existing && existing[k] == wanted[k]) :: wanted[k]
  }

  /** UpdateMetadataField: add the field to `target` unless the object already has it, and say so. */
  method UpdateField(existing: StringMap, key: string, value: string, target: StringMap)
    returns (out: StringMap, changed: bool)
    ensures out == target + Missing(existing, map[key := value])
    // it says whether writing the field would change the object
    ensures changed <==> existing + map[key := value] != existing
    // laid over the object, the new target writes what the old one wrote and the field
    ensures key !in target ==> existing + out == existing + target + map[key := value]
  {
    changed := key !in existing || existing[key] != value;
    out := if changed then target[key := value] else target;
    assert Field(existing + map[key := value], key) == Some(value);
  }

  predicate UsesInstance(cfg: MetadataConfig) {
    cfg.instanceKey != "" && cfg.instanceValue != ""
  }

  /** The labels every written object must end up with. */
  function WantedLabels(cfg: MetadataConfig): StringMap {
    var base := map[cfg.labelKey := cfg.labelValue];
    if UsesInstance(cfg) then base[cfg.instanceKey := cfg.instanceValue] else base
  }

  /** The annotations every written object must end up with. */
  function WantedAnnotations(cfg: MetadataConfig, kind: Kind): StringMap {
    var base := map[cfg.annoKey := cfg.annoValue];
    if kind.IngressRoute? then base[INGRESS_CLASS := cfg.ingressClass] else base
  }

  /** The configured keys do not stand in each other's way. */
  predicate DistinctKeys(cfg: MetadataConfig) {
    && (UsesInstance(cfg) ==> cfg.labelKey != cfg.instanceKey)
    && cfg.annoKey != INGRESS_CLASS && cfg.annoKey != ENTRY_POINTS
  }

  function LabelsOf(o: Option<KubeObject>): StringMap { if o.Some? then o.value.labels else map[] }
  function AnnotationsOf(o: Option<KubeObject>): StringMap { if o.Some? then o.value.annotations else map[] }

  /** One or two updates in sequence, each against the object as it was read. */
  function Emitted(existing: StringMap, key: string, value: string, second: bool, key2: string,
                   value2: string): StringMap
  {
    Missing(existing, map[key := value]) + if second then Missing(existing, map[key2 := value2]) else map[]
  }

  function Both(key: string, value: string, second: bool, key2: string, value2: string): StringMap {
    map[key := value] + if second then map[key2 := value2] else map[]
  }

  /**
    What is emitted is what is missing, except when two updates fight over one key and the object has
    the second value.
   */
  lemma EmittedIsMissing(existing: StringMap, key: string, value: string, second: bool, key2: string, value2: string)
    ensures Emitted(existing, key, value, second, key2, value2) ==
            Missing(existing, Both(key, value, second, key2, value2)) <==>
              !(second && key == key2 && value != value2 && Field(existing, key) == Some(value2))
  {
    var e, m := Emitted(existing, key, value, second, key2, value2),
      Missing(existing, Both(key, value, second, key2, value2));
    if second && key == key2 && value != value2 && Field(existing, key) == Some(value2) {
      assert key in e && key !in m;
    } else {
      assert e.Keys == m.Keys;
    }
  }

  /** The accumulating target map and changed flag. */
  method UpdateFields(existing: StringMap, key: string, value: string, second: bool, key2: string, value2: string)
    returns (out: StringMap, changed: bool)
    ensures out == Emitted(existing, key, value, second, key2, value2)
    ensures changed <==> out != map[]
    // laid over the object it writes both fields, unless the two fight over one key
    ensures !second || key != key2 || existing == map[] ==>
              existing + out == existing + Both(key, value, second, key2, value2)
  {
    out, changed := UpdateField(existing, key, value, map[]);
    assert changed <==> key in out;
    if second {
      var changed2;
      out, changed2 := UpdateField(existing, key2, value2, out);
      assert changed2 ==> key2 in out;
      changed := changed || changed2;
    }
    assert out == Emitted(existing, key, value, second, key2, value2);
    if !second || key != key2 || existing == map[] {
      EmittedIsMissing(existing, key, value, second, key2, value2);
      MissingSuffices(existing, Both(key, value, second, key2, value2));
    }
  }

  function EmittedLabels(existing: StringMap, cfg: MetadataConfig): StringMap {
    Emitted(existing, cfg.labelKey, cfg.labelValue, UsesInstance(cfg), cfg.instanceKey, cfg.instanceValue)
  }

  function EmittedAnnotations(existing: StringMap, kind: Kind, cfg: MetadataConfig): StringMap {
    Emitted(existing, cfg.annoKey, cfg.annoValue, kind.IngressRoute?, INGRESS_CLASS, cfg.ingressClass)
  }

  /** Keys that do not clash, and new objects whatever the keys, are sent exactly what they miss. */
  lemma EmittedSuffices(existing: Option<KubeObject>, kind: Kind, cfg: MetadataConfig)
    requires DistinctKeys(cfg) || existing.None?
    ensures EmittedLabels(LabelsOf(existing), cfg) == Missing(LabelsOf(existing), WantedLabels(cfg))
    ensures EmittedAnnotations(AnnotationsOf(existing), kind, cfg) ==
            Missing(AnnotationsOf(existing), WantedAnnotations(cfg, kind))
  {
    LabelsSuffice(LabelsOf(existing), cfg);
    AnnotationsSuffice(AnnotationsOf(existing), kind, cfg);
  }

  lemma LabelsSuffice(existing: StringMap, cfg: MetadataConfig)
    requires DistinctKeys(cfg) || existing == map[]
    ensures EmittedLabels(existing, cfg) == Missing(existing, WantedLabels(cfg))
  {
    assert WantedLabels(cfg) == Both(cfg.labelKey, cfg.labelValue, UsesInstance(cfg), cfg.instanceKey,
      cfg.instanceValue);
    EmittedIsMissing(existing, cfg.labelKey, cfg.labelValue, UsesInstance(cfg), cfg.instanceKey, cfg.instanceValue);
  }

  lemma AnnotationsSuffice(existing: StringMap, kind: Kind, cfg: MetadataConfig)
    requires DistinctKeys(cfg) || existing == map[]
    ensures EmittedAnnotations(existing, kind, cfg) == Missing(existing, WantedAnnotations(cfg, kind))
  {
    assert WantedAnnotations(cfg, kind) == Both(cfg.annoKey, cfg.annoValue, kind.IngressRoute?, INGRESS_CLASS,
      cfg.ingressClass);
    EmittedIsMissing(existing, cfg.annoKey, cfg.annoValue, kind.IngressRoute?, INGRESS_CLASS, cfg.ingressClass);
  }

  /** The four updates in sequence, accumulating two target maps and the force flag. */
  method BuildMetadata(existing: Option<KubeObject>, kind: Kind, cfg: MetadataConfig)
    returns (labels: StringMap, annotations: StringMap, force: bool)
    ensures labels == EmittedLabels(LabelsOf(existing), cfg)
    ensures annotations == EmittedAnnotations(AnnotationsOf(existing), kind, cfg)
    ensures DistinctKeys(cfg) || existing.None? ==>
              && labels == Missing(LabelsOf(existing), WantedLabels(cfg))
              && annotations == Missing(AnnotationsOf(existing), WantedAnnotations(cfg, kind))
    // force exactly when an existing object lacks or contradicts a wanted field
    ensures force <==> existing.Some? && (labels != map[] || annotations != map[])
  {
    var isUpdate, changedLabels, changedAnnotations := existing.Some?, false, false;
    labels, changedLabels := UpdateFields(LabelsOf(existing), cfg.labelKey, cfg.labelValue, UsesInstance(cfg),
      cfg.instanceKey, cfg.instanceValue);
    annotations, changedAnnotations := UpdateFields(AnnotationsOf(existing), cfg.annoKey, cfg.annoValue,
      kind.IngressRoute?, INGRESS_CLASS, cfg.ingressClass);
    force := isUpdate && (changedLabels || changedAnnotations);
    if DistinctKeys(cfg) || existing.None? { EmittedSuffices(existing, kind, cfg); }
  }

  /**
    When the instance label uses the managed label's key for another value, an object never settles:
    each write turns the one value into the other, so every second write takes the managed label away.
   */
  lemma ClashingLabelsAlternate(cfg: MetadataConfig, labels: StringMap)
    requires UsesInstance(cfg) && cfg.instanceKey == cfg.labelKey && cfg.instanceValue != cfg.labelValue
    ensures var once := labels + EmittedLabels(labels, cfg);
            var twice := once + EmittedLabels(once, cfg);
            && Field(once, cfg.labelKey) == Some(if Field(labels, cfg.labelKey) == Some(cfg.instanceValue) then
              cfg.labelValue else cfg.instanceValue)
            && Field(twice, cfg.labelKey) != Field(once, cfg.labelKey)
  {
    ClashingWrite(cfg, labels);
    ClashingWrite(cfg, labels + EmittedLabels(labels, cfg));
  }

  lemma ClashingWrite(cfg: MetadataConfig, labels: StringMap)
    requires UsesInstance(cfg) && cfg.instanceKey == cfg.labelKey && cfg.instanceValue != cfg.labelValue
    ensures Field(labels + EmittedLabels(labels, cfg), cfg.labelKey) ==
              Some(if Field(labels, cfg.labelKey) == Some(cfg.instanceValue) then cfg.labelValue else cfg.instanceValue)
  {
  }

  /** Emitting only what is missing gives the same object as emitting everything. */
  lemma MissingSuffices(existing: StringMap, wanted: StringMap)
    ensures existing + Missing(existing, wanted) == existing + wanted
  {
  }

  // ---------------------------------------------------------------------------------------------
  // Writing an object

  function EntryPointsAnnotation(kind: Kind, d: Desired): StringMap {
    if kind.IngressRoute? && d.entryPoints != "" then map[ENTRY_POINTS := d.entryPoints] else map[]
  }

  /** The patch computed from what was read, laid over what is there when it arrives. */
  function Overlay(cfg: MetadataConfig, kind: Kind, seen: Option<KubeObject>, current: Option<KubeObject>,
                   d: Desired): KubeObject
  {
    KubeObject(LabelsOf(current) + Missing(LabelsOf(seen), WantedLabels(cfg)),
           AnnotationsOf(current) + Missing(AnnotationsOf(seen), WantedAnnotations(cfg, kind))
             + EntryPointsAnnotation(kind, d),
           d.spec)
  }

  /** What writing `d` makes of an object nobody else touches meanwhile. */
  function Written(cfg: MetadataConfig, kind: Kind, existing: Option<KubeObject>, d: Desired): KubeObject {
    KubeObject(LabelsOf(existing) + WantedLabels(cfg),
           AnnotationsOf(existing) + WantedAnnotations(cfg, kind) + EntryPointsAnnotation(kind, d),
           d.spec)
  }

  lemma OverlayIsWritten(cfg: MetadataConfig, kind: Kind, existing: Option<KubeObject>, d: Desired)
    ensures Overlay(cfg, kind, existing, existing, d) == Written(cfg, kind, existing, d)
  {
    MissingSuffices(LabelsOf(existing), WantedLabels(cfg));
    MissingSuffices(AnnotationsOf(existing), WantedAnnotations(cfg, kind));
  }

  /** The label selector of a List call. */
  predicate Selected(cfg: MetadataConfig, o: KubeObject) {
    cfg.labelKey in o.labels && o.labels[cfg.labelKey] == cfg.labelValue
  }

  /** Marked as this controller's own. */
  predicate Marked(cfg: MetadataConfig, o: KubeObject) {
    Selected(cfg, o) && FieldText(o.annotations, cfg.annoKey) == cfg.annoValue
  }

  /** Marked, read off the fields. */
  lemma MarkedByFields(cfg: MetadataConfig, o: KubeObject)
    ensures Marked(cfg, o) <==>
              && cfg.labelKey in o.labels && o.labels[cfg.labelKey] == cfg.labelValue
              && (if cfg.annoKey in o.annotations then o.annotations[cfg.annoKey] == cfg.annoValue
                  else cfg.annoValue == "")
  {
  }

  /** Writing the same thing again changes nothing. */
  lemma WrittenTwice(cfg: MetadataConfig, kind: Kind, existing: Option<KubeObject>, d: Desired)
    ensures Written(cfg, kind, Some(Written(cfg, kind, existing, d)), d) == Written(cfg, kind, existing, d)
  {
    var w := Written(cfg, kind, existing, d);
    assert w.labels + WantedLabels(cfg) == w.labels;
    var c, wa, ep := AnnotationsOf(existing), WantedAnnotations(cfg, kind), EntryPointsAnnotation(kind, d);
    assert c + wa + ep + wa + ep == c + wa + ep;
  }

  /** Whatever is written is marked, carries every configured field and the spec, and keeps all other metadata. */
  lemma WrittenIsMarked(cfg: MetadataConfig, kind: Kind, existing: Option<KubeObject>, d: Desired)
    requires DistinctKeys(cfg)
    ensures var w := Written(cfg, kind, existing, d);
            && Marked(cfg, w) && w.spec == d.spec
            && Field(w.labels, cfg.labelKey) == Some(cfg.labelValue)
            && Field(w.annotations, cfg.annoKey) == Some(cfg.annoValue)
            && (cfg.instanceKey != "" && cfg.instanceValue != "" ==>
                  Field(w.labels, cfg.instanceKey) == Some(cfg.instanceValue))
            && (kind.IngressRoute? ==>
                  Field(w.annotations, "traefikconfig.ingress.kubernetes.io/router.ingressclass") ==
                  Some(cfg.ingressClass))
            && (kind.IngressRoute? && d.entryPoints != "" ==>
                  Field(w.annotations, "traefikconfig.ingress.kubernetes.io/router.entrypoints") == Some(d.entryPoints))
    ensures forall k :: k != cfg.labelKey && !(UsesInstance(cfg) && k == cfg.instanceKey) ==>
              Field(Written(cfg, kind, existing, d).labels, k) == Field(LabelsOf(existing), k)
    ensures forall k :: k != cfg.annoKey && !(kind.IngressRoute? && (k == INGRESS_CLASS || k == ENTRY_POINTS)) ==>
              Field(Written(cfg, kind, existing, d).annotations, k) == Field(AnnotationsOf(existing), k)
  {
    var w := Written(cfg, kind, existing, d);
    AnnotationKeysDiffer();
    assert w.labels[cfg.labelKey] == cfg.labelValue;
    assert w.annotations[cfg.annoKey] == cfg.annoValue;
  }

  /** Read off an existing object: each of its other labels and annotations is kept. */
  lemma WrittenKeepsTheRest(cfg: MetadataConfig, kind: Kind, o: KubeObject, d: Desired, k: string)
    requires k != cfg.labelKey && k != cfg.instanceKey && k != cfg.annoKey
    requires k != "traefikconfig.ingress.kubernetes.io/router.ingressclass"
             && k != "traefikconfig.ingress.kubernetes.io/router.entrypoints"
    ensures var w := Written(cfg, kind, Some(o), d);
            && (k in w.labels <==> k in o.labels) && (k in o.labels ==> w.labels[k] == o.labels[k])
            && (k in w.annotations <==> k in o.annotations) && (k in o.annotations ==>
              w.annotations[k] == o.annotations[k])
  {
  }

  lemma AnnotationKeysDiffer()
    ensures INGRESS_CLASS != ENTRY_POINTS
  {
    assert |INGRESS_CLASS| != |ENTRY_POINTS|;
  }

  /**
    Whatever the configured keys, a new object is marked exactly when no other written field takes a
    marker's key for another value.
   */
  lemma MarkedExactly(cfg: MetadataConfig, kind: Kind, d: Desired)
    ensures Marked(cfg, Written(cfg, kind, None, d)) <==>
              && (UsesInstance(cfg) && cfg.instanceKey == cfg.labelKey ==> cfg.instanceValue == cfg.labelValue)
              && (kind.IngressRoute? && cfg.annoKey == INGRESS_CLASS ==> cfg.ingressClass == cfg.annoValue)
              && (kind.IngressRoute? && cfg.annoKey == ENTRY_POINTS && d.entryPoints != "" ==>
                d.entryPoints == cfg.annoValue)
  {
    var w := Written(cfg, kind, None, d);
    AnnotationKeysDiffer();
    assert cfg.labelKey in w.labels && cfg.annoKey in w.annotations;
  }

  /** So it can lose its marker: an IngressRoute, when the marker key is the ingress class key. */
  lemma ClashingKeysLoseTheMarker()
    ensures exists cfg: MetadataConfig, d: Desired :: !Marked(cfg, Written(cfg, IngressRoute, None, d))
  {
    var cfg := MetadataConfig("l", "v", "", "", INGRESS_CLASS, "me", "traefik");
    assert |cfg.annoValue| != |cfg.ingressClass|;
    MarkedExactly(cfg, IngressRoute, Desired(Null, ""));
  }
}
