/**
  Three-way merge of labels and annotations with ownership tracking
  (internal/apply/endpointslice.go).

  The keys the controller manages are recorded on the object as a JSON list. Encoding such a list is a
  library matter, hence a parameter with one law: decoding gives back what was encoded.
 */
module EndpointSlices {
  import opened Results
  import opened Ordering
  import opened StringMaps

  datatype ListCodec = ListCodec(encode: seq<string> -> string, decode: string -> Option<seq<string>>)

  ghost predicate Lawful(cd: ListCodec) {
    && (forall ks :: cd.decode(cd.encode(ks)) == Some(ks) && cd.encode(ks) != "")
    && cd.decode(EMPTY_LIST) == Some([])
  }

  const EMPTY_LIST := "[]"
  const LABEL_KEYS := "pangolin-kube-controller/managed-label-keys"
  const ANNOTATION_KEYS := "pangolin-kube-controller/managed-annotation-keys"

  // ---------------------------------------------------------------------------------------------
  // Key lists

  function ParseKeys(cd: ListCodec, raw: string): set<string> {
    if raw == "" then {}
    else
      match cd.decode(raw)
      case None => {}
      case Some(ks) => set k | k in ks && k != ""
  }

  /** The sorted list of the non-empty keys, encoded. */
  method MarshalKeys(cd: ListCodec, m: StringMap) returns (raw: string)
    requires Lawful(cd)
    ensures raw != "" && ParseKeys(cd, raw) == m.Keys - {""}
  {
    if m.Keys == {} { return EMPTY_LIST; }
    var keys := SortKeys(m.Keys - {""});
    raw := cd.encode(keys);
    assert (set k | k in keys && k != "") == m.Keys - {""};
  }

  // ---------------------------------------------------------------------------------------------
  // The merge

  /** Metadata and the set of its keys that are recorded as managed. */
  datatype Tracked = Tracked(fields: StringMap, managed: set<string>)

  /** One apply: managed keys that are no longer desired go, the desired ones are written and recorded. */
  function Merge(t: Tracked, desired: StringMap, allowed: set<string>): Tracked {
    Tracked((t.fields - (t.managed - desired.Keys)) + desired, desired.Keys * allowed)
  }

  method RemoveManagedKeys(existing: StringMap, desired: StringMap, managed: set<string>) returns (out: StringMap)
    requires "" !in managed
    ensures out == existing - (managed - desired.Keys)
  {
    out := existing;
    if existing.Keys == {} || managed == {} {
      assert existing - (managed - desired.Keys) == existing;
      return;
    }
    var rest := managed;
    ghost var gone: set<string> := {};
    while rest != {}
      invariant rest <= managed && gone == (managed - rest) - desired.Keys
      invariant out == existing - gone
      decreases rest
    {
      var k :| k in rest;
      if k !in desired {
        out := out - {k};
        gone := gone + {k};
      }
      rest := rest - {k};
    }
    assert gone == managed - desired.Keys;
  }

  method MergeStringMap(dst: StringMap, src: StringMap) returns (out: StringMap)
    ensures out == dst + src
  {
    out := dst;
    var rest := src.Keys;
    while rest != {}
      invariant rest <= src.Keys
      invariant out == dst + (map k | k in src && k !in rest :: src[k])
      decreases rest
    {
      var k :| k in rest;
      out := out[k := src[k]];
      rest := rest - {k};
    }
    assert (map k | k in src && k !in rest :: src[k]) == src;
  }

  /** The entries whose key is one of the given, non-empty, keys. */
  method KeepManaged(m: StringMap, keys: seq<string>, except: set<string>) returns (out: StringMap)
    ensures out == map k | k in m && k in Allowed(keys) - except :: m[k]
  {
    out := map[];
    var rest := m.Keys;
    while rest != {}
      invariant rest <= m.Keys
      invariant out == map k | k in m && k !in rest && k in Allowed(keys) - except :: m[k]
      decreases rest
    {
      var k :| k in rest;
      if k in keys && k != "" && k !in except { out := out[k := m[k]]; }
      rest := rest - {k};
    }
  }

  function Allowed(keys: seq<string>): set<string> {
    set k | k in keys && k != ""
  }

  // ---------------------------------------------------------------------------------------------
  // EndpointSlice objects

  datatype Ops = Ops(labelKey: string, labelValue: string, instanceKey: string, instanceValue: string, annoKey: string,
                     annoValue: string, readOnly: bool)

  const TRACKERS := {LABEL_KEYS, ANNOTATION_KEYS}

  function ManagedLabelKeys(o: Ops): set<string> { Allowed([o.labelKey, o.instanceKey]) }
  function ManagedAnnotationKeys(o: Ops): set<string> { Allowed([o.annoKey]) - TRACKERS }

  /** The labels an object is sent with: its own, plus the managed ones. */
  function DesiredLabels(o: Ops, labels: StringMap): StringMap {
    var l1 := if o.labelKey != "" then labels[o.labelKey := o.labelValue] else labels;
    if o.instanceKey != "" && o.instanceValue != "" then l1[o.instanceKey := o.instanceValue] else l1
  }

  function DesiredAnnotations(o: Ops, annotations: StringMap): StringMap {
    if o.annoKey != "" then annotations[o.annoKey := o.annoValue] else annotations
  }

  /** The object that is sent carries the configured markers and keeps its other labels and annotations. */
  lemma SentWithMarkers(o: Ops, labels: StringMap, annotations: StringMap)
    ensures o.instanceKey != "" && o.instanceValue != "" ==>
              Field(DesiredLabels(o, labels), o.instanceKey) == Some(o.instanceValue)
    ensures o.labelKey != "" && (o.instanceKey != o.labelKey || o.instanceValue == "") ==>
              Field(DesiredLabels(o, labels), o.labelKey) == Some(o.labelValue)
    ensures forall k :: k !in ManagedLabelKeys(o) ==> Field(DesiredLabels(o, labels), k) == Field(labels, k)
    ensures o.annoKey != "" ==> Field(DesiredAnnotations(o, annotations), o.annoKey) == Some(o.annoValue)
    ensures forall k :: k !in Allowed([o.annoKey]) ==>
              Field(DesiredAnnotations(o, annotations), k) == Field(annotations, k)
  {
    assert o.labelKey in [o.labelKey, o.instanceKey] && o.instanceKey in [o.labelKey, o.instanceKey];
    assert o.annoKey in [o.annoKey];
  }

  lemma TrackersDiffer()
    ensures LABEL_KEYS != ANNOTATION_KEYS
  {
    assert |LABEL_KEYS| != |ANNOTATION_KEYS|;
  }

  lemma OutsideTrackers(a: StringMap, lk: string, ak: string)
    ensures a[LABEL_KEYS := lk][ANNOTATION_KEYS := ak] - TRACKERS == a - TRACKERS
    ensures a[LABEL_KEYS := lk][ANNOTATION_KEYS := ak].Keys - TRACKERS == a.Keys - TRACKERS
  {
  }

  /** The labels and annotations of an object. */
  datatype Meta = Meta(labels: StringMap, annotations: StringMap)

  const NO_META := Meta(map[], map[])

  /** The labels with the keys recorded for them, and likewise the annotations. */
  function TrackedLabels(cd: ListCodec, m: Meta): Tracked {
    Tracked(m.labels, ParseKeys(cd, FieldText(m.annotations, LABEL_KEYS)))
  }

  function TrackedAnnotations(cd: ListCodec, m: Meta): Tracked {
    Tracked(m.annotations, ParseKeys(cd, FieldText(m.annotations, ANNOTATION_KEYS)))
  }

  /** Where the records are and how they are read. */
  lemma RecordsExactly(cd: ListCodec, m: Meta, k: string)
    ensures k in TrackedLabels(cd, m).managed <==>
              && "pangolin-kube-controller/managed-label-keys" in m.annotations && k != ""
              && var raw := m.annotations["pangolin-kube-controller/managed-label-keys"];
                 raw != "" && cd.decode(raw).Some? && k in cd.decode(raw).value
    ensures k in TrackedAnnotations(cd, m).managed <==>
              && "pangolin-kube-controller/managed-annotation-keys" in m.annotations && k != ""
              && var raw := m.annotations["pangolin-kube-controller/managed-annotation-keys"];
                 raw != "" && cd.decode(raw).Some? && k in cd.decode(raw).value
  {
  }

  /**
    `sent` is what the object to be applied, `asked`, is turned into: with its markers, and with records
    of its managed keys.
   */
  ghost predicate Prepared(o: Ops, cd: ListCodec, asked: Meta, sent: Meta) {
    && sent.labels == DesiredLabels(o, asked.labels)
    && TRACKERS <= sent.annotations.Keys && sent.annotations - TRACKERS ==
      DesiredAnnotations(o, asked.annotations) - TRACKERS
    && TrackedLabels(cd, sent).managed == sent.labels.Keys * ManagedLabelKeys(o)
    && TrackedAnnotations(cd, sent).managed == sent.annotations.Keys * ManagedAnnotationKeys(o)
  }

  /**
    One apply: a merge step for the labels and one for the annotations. An object that is not there has
    no metadata.
   */
  ghost predicate ApplyStep(o: Ops, cd: ListCodec, before: Meta, asked: Meta, sent: Meta, after: Meta) {
    && Prepared(o, cd, asked, sent)
    && TrackedLabels(cd, after) == Merge(TrackedLabels(cd, before), sent.labels, ManagedLabelKeys(o))
    && TrackedAnnotations(cd, after) == Merge(TrackedAnnotations(cd, before), sent.annotations,
      ManagedAnnotationKeys(o))
  }

  lemma CreateStep(o: Ops, cd: ListCodec, asked: Meta, sent: Meta)
    requires Prepared(o, cd, asked, sent)
    ensures ApplyStep(o, cd, NO_META, asked, sent, sent)
  {
    CreateIsMerge(sent.labels, ManagedLabelKeys(o));
    CreateIsMerge(sent.annotations, ManagedAnnotationKeys(o));
  }

  /** The records that were sent are the records afterwards. */
  lemma UpdateStep(o: Ops, cd: ListCodec, before: Meta, asked: Meta, sent: Meta, after: Meta)
    requires Prepared(o, cd, asked, sent)
    requires after.labels == Merge(TrackedLabels(cd, before), sent.labels, {}).fields
    requires after.annotations == Merge(TrackedAnnotations(cd, before), sent.annotations, {}).fields
    ensures ApplyStep(o, cd, before, asked, sent, after)
  {
    assert FieldText(after.annotations, LABEL_KEYS) == FieldText(sent.annotations, LABEL_KEYS)
      by { assert LABEL_KEYS in TRACKERS; }
    assert FieldText(after.annotations, ANNOTATION_KEYS) == FieldText(sent.annotations, ANNOTATION_KEYS)
      by { assert ANNOTATION_KEYS in TRACKERS; }
  }

  class Slice {
    /** Endpoints, ports and address type, which are simply replaced. */
    var payload: string
    var labels: StringMap
    var annotations: StringMap

    constructor (payload: string, meta: Meta)
      ensures this.payload == payload && Metadata() == meta
    {
      this.payload, this.labels, this.annotations := payload, meta.labels, meta.annotations;
    }

    function Metadata(): Meta
      reads this
    {
      Meta(labels, annotations)
    }

    method EnsureManagedMeta(o: Ops)
      modifies this
      ensures payload == old(payload)
      ensures labels == DesiredLabels(o, old(labels)) && annotations == DesiredAnnotations(o, old(annotations))
    {
      if o.labelKey != "" { labels := labels[o.labelKey := o.labelValue]; }
      if o.instanceKey != "" && o.instanceValue != "" { labels := labels[o.instanceKey := o.instanceValue]; }
      if o.annoKey != "" { annotations := annotations[o.annoKey := o.annoValue]; }
    }

    /** Record which labels and annotations are managed; the records themselves are never counted. */
    method EnsureKeysTracking(cd: ListCodec, labelKeys: seq<string>, annoKeys: seq<string>)
      requires Lawful(cd)
      modifies this`annotations
      ensures TRACKERS <= annotations.Keys && annotations - TRACKERS == old(annotations) - TRACKERS
      ensures TrackedLabels(cd, Metadata()).managed == labels.Keys * Allowed(labelKeys)
      ensures TrackedAnnotations(cd, Metadata()).managed == annotations.Keys * (Allowed(annoKeys) - TRACKERS)
    {
      TrackersDiffer();
      ghost var a := annotations;
      var lbls := KeepManaged(labels, labelKeys, {});
      var lk := MarshalKeys(cd, lbls);
      assert lbls.Keys - {""} == labels.Keys * Allowed(labelKeys);
      annotations := annotations[LABEL_KEYS := lk];
      var annos := KeepManaged(annotations, annoKeys, TRACKERS);
      var ak := MarshalKeys(cd, annos);
      assert annos.Keys - {""} == annotations.Keys * (Allowed(annoKeys) - TRACKERS);
      annotations := annotations[ANNOTATION_KEYS := ak];
      OutsideTrackers(a, lk, ak);
    }

    /** What is done to the object to be sent before it is sent. */
    method Prepare(o: Ops, cd: ListCodec)
      requires Lawful(cd)
      modifies this
      ensures payload == old(payload) && Prepared(o, cd, old(Metadata()), Metadata())
    {
      EnsureManagedMeta(o);
      EnsureKeysTracking(cd, [o.labelKey, o.instanceKey], [o.annoKey]);
    }

    /** updateExisting, up to the call that sends the result: `this` is the object read back, `es` the prepared one. */
    method Update(es: Slice, cd: ListCodec)
      requires es != this
      modifies this
      ensures payload == es.payload
      ensures labels == Merge(TrackedLabels(cd, old(Metadata())), es.labels, {}).fields
      ensures annotations == Merge(TrackedAnnotations(cd, old(Metadata())), es.annotations, {}).fields
    {
      payload := es.payload;
      var lk, ak := ParseKeys(cd, FieldText(annotations, LABEL_KEYS)),
        ParseKeys(cd, FieldText(annotations, ANNOTATION_KEYS));
      labels := RemoveManagedKeys(labels, es.labels, lk);
      annotations := RemoveManagedKeys(annotations, es.annotations, ak);
      labels := MergeStringMap(labels, es.labels);
      annotations := MergeStringMap(annotations, es.annotations);
    }
  }

  /** An EndpointSlice as the API server holds it. */
  datatype Stored = Stored(payload: string, meta: Meta)

  /** The EndpointSlices of the namespace, behind calls that may fail before or after they took effect. */
  class SliceApi {
    var slices: map<string, Stored>

    constructor (slices: map<string, Stored>)
      ensures this.slices == slices
    {
      this.slices := slices;
    }

    function MetaOf(name: string): Meta
      reads this
    {
      if name in slices then slices[name].meta else NO_META
    }

    method Put(name: string, es: Slice) returns (ok: bool)
      modifies this
      ensures slices == old(slices) || slices == old(slices)[name := Stored(es.payload, es.Metadata())]
      ensures ok ==> slices == old(slices)[name := Stored(es.payload, es.Metadata())]
    {
      var down, lost: bool := *, *;
      if !down { slices := slices[name := Stored(es.payload, es.Metadata())]; }
      ok := !down && !lost;
    }

    /** Apply: prepare the object, then create it, or merge it into what is there. */
    method Apply(o: Ops, cd: ListCodec, name: string, es: Slice) returns (ok: bool)
      requires Lawful(cd)
      modifies this, es
      ensures Prepared(o, cd, old(es.Metadata()), es.Metadata()) && es.payload == old(es.payload)
      ensures o.readOnly ==> ok && slices == old(slices)
      // whatever fails, either nothing happened or the whole step did; if nothing failed, it did
      ensures slices == old(slices) || Applied(o, cd, name, old(MetaOf(name)), old(es.Metadata()), es, old(slices))
      ensures ok && !o.readOnly ==> Applied(o, cd, name, old(MetaOf(name)), old(es.Metadata()), es, old(slices))
    {
      ghost var asked, before := es.Metadata(), MetaOf(name);
      es.Prepare(o, cd);
      if o.readOnly { return true; }
      var down: bool := *;
      if down { return false; }
      if name !in slices {
        CreateStep(o, cd, asked, es.Metadata());
        ok := Put(name, es);
      } else {
        var existing := new Slice(slices[name].payload, slices[name].meta);
        existing.Update(es, cd);
        UpdateStep(o, cd, before, asked, es.Metadata(), existing.Metadata());
        ok := Put(name, existing);
      }
    }

    /** The named object was replaced by one merge step, and nothing else changed. */
    ghost predicate Applied(o: Ops, cd: ListCodec, name: string, before: Meta, asked: Meta, es: Slice,
                            slicesBefore: map<string, Stored>)
      reads this, es
    {
      && name in slices && slices == slicesBefore[name := slices[name]]
      && slices[name].payload == es.payload
      && ApplyStep(o, cd, before, asked, es.Metadata(), slices[name].meta)
    }
  }

  // ---------------------------------------------------------------------------------------------
  // Whole runs

  /** One apply of a run: what it sent and which keys it recorded as its own. */
  datatype Sent = Sent(desired: StringMap, allowed: set<string>)

  function Run(t: Tracked, sent: seq<Sent>): Tracked {
    if sent == [] then t
    else
      var n := |sent| - 1;
      Merge(Run(t, sent[..n]), sent[n].desired, sent[n].allowed)
  }

  /** The last apply that sent key `k`, or -1. */
  function LastSent(sent: seq<Sent>, k: string): (j: int)
    ensures -1 <= j < |sent|
    ensures j >= 0 ==> k in sent[j].desired
    ensures forall i :: j < i < |sent| ==> k !in sent[i].desired
  {
    if sent == [] then -1
    else if k in sent[|sent| - 1].desired then |sent| - 1
    else LastSent(sent[..|sent| - 1], k)
  }

  /**
    What a key holds at the end of a run, read off its history: the last apply's value if that apply
    sent it; nothing if it was last sent as a managed key and then dropped; its last value if it was
    sent but never recorded; and otherwise the foreign value it started with.
   */
  function Expected(foreign: StringMap, sent: seq<Sent>, k: string): Option<string> {
    var j := LastSent(sent, k);
    if j == -1 then Field(foreign, k)
    else if j == |sent| - 1 then Some(sent[j].desired[k])
    else if k in sent[j].allowed then None
    else Some(sent[j].desired[k])
  }

  /** The recorded keys are those the last apply sent and was allowed to record. */
  lemma RunManaged(foreign: StringMap, sent: seq<Sent>)
    ensures Run(Tracked(foreign, {}), sent).managed ==
            if sent == [] then {} else sent[|sent| - 1].desired.Keys * sent[|sent| - 1].allowed
  {
  }

  /** For every run and every key, from foreign metadata without records. */
  lemma {:induction false} RunIsExpected(foreign: StringMap, sent: seq<Sent>, k: string)
    ensures Field(Run(Tracked(foreign, {}), sent).fields, k) == Expected(foreign, sent, k)
  {
    if sent != [] {
      var n := |sent| - 1;
      var p := sent[..n];
      RunIsExpected(foreign, p, k);
      RunManaged(foreign, p);
      if k !in sent[n].desired {
        var j := LastSent(p, k);
        assert LastSent(sent, k) == j;
      }
    }
  }

  /** All keys ever sent. */
  function SentKeys(sent: seq<Sent>): set<string> {
    set i, k | 0 <= i < |sent| && k in sent[i].desired :: k
  }

  /** Every key ever sent is recorded, or still sent at the end. */
  ghost predicate RecordedOrKept(sent: seq<Sent>)
    requires sent != []
  {
    forall i, k :: 0 <= i < |sent| && k in sent[i].desired ==> k in sent[i].allowed || k in sent[|sent| - 1].desired
  }

  /** Then the run keeps the untouched foreign keys and the last set, and nothing else. */
  lemma ManagedRun(foreign: StringMap, sent: seq<Sent>)
    requires sent != [] && RecordedOrKept(sent)
    ensures Run(Tracked(foreign, {}), sent).fields == (foreign - SentKeys(sent)) + sent[|sent| - 1].desired
  {
    var got, want := Run(Tracked(foreign, {}), sent).fields, (foreign - SentKeys(sent)) + sent[|sent| - 1].desired;
    forall k ensures Field(got, k) == Field(want, k) {
      RunIsExpected(foreign, sent, k);
      var j := LastSent(sent, k);
      assert k in SentKeys(sent) <==> j >= 0;
    }
    SameValues(got, want);
  }

  lemma SameValues(a: StringMap, b: StringMap)
    requires forall k :: Field(a, k) == Field(b, k)
    ensures a == b
  {
    forall k ensures k in a <==> k in b { assert Field(a, k) == Field(b, k); }
    forall k | k in a ensures a[k] == b[k] { assert Field(a, k) == Field(b, k); }
    assert a.Keys == b.Keys;
  }

  /** Repeating an apply changes nothing. */
  lemma MergeTwice(t: Tracked, desired: StringMap, allowed: set<string>)
    ensures Merge(Merge(t, desired, allowed), desired, allowed) == Merge(t, desired, allowed)
  {
    var once := Merge(t, desired, allowed);
    assert once.managed - desired.Keys == {};
    assert once.fields - {} == once.fields;
    assert once.fields + desired == once.fields;
  }

  /** Creating an object is merging into nothing. */
  lemma CreateIsMerge(desired: StringMap, allowed: set<string>)
    ensures Merge(Tracked(map[], {}), desired, allowed) == Tracked(desired, desired.Keys * allowed)
  {
    assert map[] - ({} - desired.Keys) + desired == desired;
  }

  /** A key sent without being recorded outlives the apply that sent it. */
  lemma UnrecordedKeysStay(foreign: StringMap, first: StringMap, second: StringMap, k: string)
    requires k in first && k !in second
    ensures Field(Run(Tracked(foreign, {}), [Sent(first, {}), Sent(second, {})]).fields, k) == Some(first[k])
  {
    var sent := [Sent(first, {}), Sent(second, {})];
    RunIsExpected(foreign, sent, k);
    assert sent[..1] == [Sent(first, {})];
    assert LastSent(sent, k) == 0;
  }

  // ---------------------------------------------------------------------------------------------
  // Runs of applies on one object

  /**
    The states of an object through a run of applies: `asked[i]` was sent as `sent[i]` and led from
    state i to state i + 1.
   */
  datatype History = History(states: seq<Meta>, asked: seq<Meta>, sent: seq<Meta>)

  ghost predicate IsHistory(o: Ops, cd: ListCodec, h: History) {
    && |h.states| == |h.asked| + 1 && |h.sent| == |h.asked|
    && forall i :: 0 <= i < |h.asked| ==> ApplyStep(o, cd, h.states[i], h.asked[i], h.sent[i], h.states[i + 1])
  }

  function LabelsSent(o: Ops, sent: seq<Meta>): (r: seq<Sent>)
    ensures |r| == |sent|
  {
    seq(|sent|, i requires 0 <= i < |sent| => Sent(sent[i].labels, ManagedLabelKeys(o)))
  }

  function AnnotationsSent(o: Ops, sent: seq<Meta>): (r: seq<Sent>)
    ensures |r| == |sent|
  {
    seq(|sent|, i requires 0 <= i < |sent| => Sent(sent[i].annotations, ManagedAnnotationKeys(o)))
  }

  /** A run of applies is a run of merges, for the labels and for the annotations. */
  lemma {:induction false} LabelHistory(o: Ops, cd: ListCodec, h: History, n: nat)
    requires IsHistory(o, cd, h) && n <= |h.asked|
    ensures TrackedLabels(cd, h.states[n]) == Run(TrackedLabels(cd, h.states[0]), LabelsSent(o, h.sent[..n]))
  {
    if n > 0 {
      LabelHistory(o, cd, h, n - 1);
      assert ApplyStep(o, cd, h.states[n - 1], h.asked[n - 1], h.sent[n - 1], h.states[n - 1 + 1]);
      assert LabelsSent(o, h.sent[..n])[..n - 1] == LabelsSent(o, h.sent[..n - 1]);
    }
  }

  lemma {:induction false} AnnotationHistory(o: Ops, cd: ListCodec, h: History, n: nat)
    requires IsHistory(o, cd, h) && n <= |h.asked|
    ensures TrackedAnnotations(cd, h.states[n]) == Run(TrackedAnnotations(cd, h.states[0]),
            AnnotationsSent(o, h.sent[..n]))
  {
    if n > 0 {
      AnnotationHistory(o, cd, h, n - 1);
      assert ApplyStep(o, cd, h.states[n - 1], h.asked[n - 1], h.sent[n - 1], h.states[n - 1 + 1]);
      assert AnnotationsSent(o, h.sent[..n])[..n - 1] == AnnotationsSent(o, h.sent[..n - 1]);
    }
  }

  /** No records on an object that the controller has not applied yet. */
  predicate Unrecorded(m: Meta) { m.annotations.Keys !! TRACKERS }

  /** Every label and annotation that is ever asked for is a managed one, or still asked for at the end. */
  ghost predicate AsksManaged(o: Ops, asked: seq<Meta>)
    requires asked != []
  {
    forall i :: 0 <= i < |asked| ==>
      && asked[i].labels.Keys <= ManagedLabelKeys(o) + asked[|asked| - 1].labels.Keys
      && asked[i].annotations.Keys <= ManagedAnnotationKeys(o) + asked[|asked| - 1].annotations.Keys
  }

  /**
    From foreign metadata without records, after any run of applies that drop none but managed keys, the
    labels are the foreign ones that were never sent plus the last ones sent, and so are the annotations.
   */
  lemma AppliesConverge(o: Ops, cd: ListCodec, h: History)
    requires IsHistory(o, cd, h) && h.asked != [] && Unrecorded(h.states[0]) && AsksManaged(o, h.asked)
    ensures var n := |h.asked|;
            && h.states[n].labels == (h.states[0].labels - SentKeys(LabelsSent(o, h.sent))) + h.sent[n - 1].labels
            && h.states[n].annotations == (h.states[0].annotations - SentKeys(AnnotationsSent(o, h.sent)))
              + h.sent[n - 1].annotations
  {
    var n := |h.asked|;
    assert h.sent[..n] == h.sent;
    LabelHistory(o, cd, h, n);
    AnnotationHistory(o, cd, h, n);
    assert TrackedLabels(cd, h.states[0]) == Tracked(h.states[0].labels, {});
    assert TrackedAnnotations(cd, h.states[0]) == Tracked(h.states[0].annotations, {});
    LabelsRecordedOrKept(o, cd, h);
    AnnotationsRecordedOrKept(o, cd, h);
    ManagedRun(h.states[0].labels, LabelsSent(o, h.sent));
    ManagedRun(h.states[0].annotations, AnnotationsSent(o, h.sent));
  }

  lemma LabelsRecordedOrKept(o: Ops, cd: ListCodec, h: History)
    requires IsHistory(o, cd, h) && h.asked != [] && AsksManaged(o, h.asked)
    ensures RecordedOrKept(LabelsSent(o, h.sent))
  {
    HistoryIsPrepared(o, cd, h);
    var ls := LabelsSent(o, h.sent);
    forall i | 0 <= i < |h.sent| ensures ls[i].desired.Keys <= ManagedLabelKeys(o) + ls[|ls| - 1].desired.Keys {
      SentWithin(o, cd, h.asked, h.sent, i);
      assert ls[i].desired == h.sent[i].labels && ls[|ls| - 1].desired == h.sent[|h.sent| - 1].labels;
    }
    AllRecordedOrKept(ls, ManagedLabelKeys(o));
  }

  lemma AnnotationsRecordedOrKept(o: Ops, cd: ListCodec, h: History)
    requires IsHistory(o, cd, h) && h.asked != [] && AsksManaged(o, h.asked)
    ensures RecordedOrKept(AnnotationsSent(o, h.sent))
  {
    HistoryIsPrepared(o, cd, h);
    var anns := AnnotationsSent(o, h.sent);
    forall i | 0 <= i < |h.sent|
      ensures anns[i].desired.Keys <= ManagedAnnotationKeys(o) + anns[|anns| - 1].desired.Keys
    {
      SentWithin(o, cd, h.asked, h.sent, i);
    }
    AllRecordedOrKept(anns, ManagedAnnotationKeys(o));
  }

  ghost predicate AllPrepared(o: Ops, cd: ListCodec, asked: seq<Meta>, sent: seq<Meta>) {
    |asked| == |sent| && forall i :: 0 <= i < |sent| ==> Prepared(o, cd, asked[i], sent[i])
  }

  lemma HistoryIsPrepared(o: Ops, cd: ListCodec, h: History)
    requires IsHistory(o, cd, h)
    ensures AllPrepared(o, cd, h.asked, h.sent)
  {
    forall i | 0 <= i < |h.sent| ensures Prepared(o, cd, h.asked[i], h.sent[i]) {
      assert ApplyStep(o, cd, h.states[i], h.asked[i], h.sent[i], h.states[i + 1]);
    }
  }

  lemma SentWithin(o: Ops, cd: ListCodec, asked: seq<Meta>, sent: seq<Meta>, i: nat)
    requires asked != [] && AllPrepared(o, cd, asked, sent) && AsksManaged(o, asked) && i < |sent|
    ensures sent[i].labels.Keys <= ManagedLabelKeys(o) + sent[|sent| - 1].labels.Keys
    ensures sent[i].annotations.Keys <= ManagedAnnotationKeys(o) + sent[|sent| - 1].annotations.Keys
  {
    TwoSent(o, cd, asked[i], sent[i], asked[|sent| - 1], sent[|sent| - 1]);
  }

  lemma TwoSent(o: Ops, cd: ListCodec, asked: Meta, sent: Meta, askedLast: Meta, sentLast: Meta)
    requires Prepared(o, cd, asked, sent) && Prepared(o, cd, askedLast, sentLast)
    requires asked.labels.Keys <= ManagedLabelKeys(o) + askedLast.labels.Keys
    requires asked.annotations.Keys <= ManagedAnnotationKeys(o) + askedLast.annotations.Keys
    ensures sent.labels.Keys <= ManagedLabelKeys(o) + sentLast.labels.Keys
    ensures sent.annotations.Keys <= ManagedAnnotationKeys(o) + sentLast.annotations.Keys
  {
    PreparedKeys(o, cd, asked, sent);
    PreparedKeys(o, cd, askedLast, sentLast);
    Within(asked.labels.Keys, sent.labels.Keys, askedLast.labels.Keys, sentLast.labels.Keys, ManagedLabelKeys(o), {});
    Within(asked.annotations.Keys, sent.annotations.Keys, askedLast.annotations.Keys, sentLast.annotations.Keys,
      ManagedAnnotationKeys(o), TRACKERS);
  }

  lemma Within(asked: set<string>, sent: set<string>, askedLast: set<string>, sentLast: set<string>,
               managed: set<string>, always: set<string>)
    requires sent <= asked + managed + always && asked <= managed + askedLast && askedLast <= sentLast
             && always <= sentLast
    ensures sent <= managed + sentLast
  {
  }

  lemma AllRecordedOrKept(sent: seq<Sent>, allowed: set<string>)
    requires sent != []
    requires forall i :: 0 <= i < |sent| ==>
               sent[i].allowed == allowed && sent[i].desired.Keys <= allowed + sent[|sent| - 1].desired.Keys
    ensures RecordedOrKept(sent)
  {
  }

  lemma PreparedKeys(o: Ops, cd: ListCodec, asked: Meta, sent: Meta)
    requires Prepared(o, cd, asked, sent)
    ensures asked.labels.Keys <= sent.labels.Keys <= asked.labels.Keys + ManagedLabelKeys(o)
    ensures asked.annotations.Keys <= sent.annotations.Keys <= asked.annotations.Keys + ManagedAnnotationKeys(o)
            + TRACKERS
    ensures TRACKERS <= sent.annotations.Keys
  {
    assert o.labelKey in [o.labelKey, o.instanceKey] && o.instanceKey in [o.labelKey, o.instanceKey]
      && o.annoKey in [o.annoKey];
    var d := DesiredAnnotations(o, asked.annotations);
    forall k ensures k !in TRACKERS ==> (k in sent.annotations <==> k in d) {
      assert k in sent.annotations - TRACKERS <==> k in d - TRACKERS;
    }
  }
}
