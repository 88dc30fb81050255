/**
  The reconciler as the source runs it: loops of API calls, any of which may fail
  (internal/controller/apply.go, internal/apply/unstructured.go).

  A failed call either had no effect or took effect although its answer was lost. `faults` counts the
  failures, so that a contract can say that an operation fails only if a call it made failed.
 */
module Reconciler {
  import opened Results
  import opened JsonValues
  import opened Objects
  import opened Phases
  import opened StringMaps

  datatype Lookup = Found(o: KubeObject) | NotFound | Failed

  datatype Settings = Settings(meta: MetadataConfig, readOnly: bool, grace: bool)

  /** The objects of a phase: what to write, and the names whose document does not decode. */
  datatype Plan = Plan(want: Wanted, bad: set<string>)

  /** Laying emitted fields over whatever is there. */
  function Merge(current: Option<KubeObject>, patch: KubeObject): KubeObject {
    KubeObject(LabelsOf(current) + patch.labels, AnnotationsOf(current) + patch.annotations, patch.spec)
  }

  /** The patch for `d`, given what a Get returned. */
  function PatchFor(cfg: MetadataConfig, kind: Kind, seen: Option<KubeObject>, d: Desired): KubeObject {
    KubeObject(Missing(LabelsOf(seen), WantedLabels(cfg)),
               Missing(AnnotationsOf(seen), WantedAnnotations(cfg, kind)) + EntryPointsAnnotation(kind, d),
               d.spec)
  }

  lemma MergeIsWritten(cfg: MetadataConfig, kind: Kind, seen: Option<KubeObject>, d: Desired)
    ensures Merge(seen, PatchFor(cfg, kind, seen, d)) == Written(cfg, kind, seen, d)
  {
    var c, m, e := AnnotationsOf(seen), Missing(AnnotationsOf(seen), WantedAnnotations(cfg, kind)),
      EntryPointsAnnotation(kind, d);
    MissingSuffices(LabelsOf(seen), WantedLabels(cfg));
    MissingSuffices(c, WantedAnnotations(cfg, kind));
    AddTwice(c, m, e);
  }

  lemma AddTwice(a: StringMap, b: StringMap, c: StringMap)
    ensures a + (b + c) == a + b + c
  {
  }

  lemma MergeTwice(current: Option<KubeObject>, patch: KubeObject)
    ensures Merge(Some(Merge(current, patch)), patch) == Merge(current, patch)
  {
    var once := Merge(current, patch);
    assert once.labels + patch.labels == once.labels;
    assert once.annotations + patch.annotations == once.annotations;
  }

  lemma MergeNone(o: KubeObject)
    ensures Merge(None, o) == o
  {
    assert map[] + o.labels == o.labels;
    assert map[] + o.annotations == o.annotations;
  }

  lemma RemoveOneMore(s: Store, gone: set<string>, n: string)
    ensures s - gone - {n} == s - (gone + {n})
    ensures s - {} == s
  {
  }

  lemma ReplaceTwice(c: Cluster, kind: Kind, a: Store, b: Store)
    ensures c[kind := a][kind := b] == c[kind := b]
    ensures c[kind := c[kind]] == c
  {
  }

  method BuildPatch(cfg: MetadataConfig, kind: Kind, seen: Option<KubeObject>, d: Desired)
    returns (patch: KubeObject, force: bool)
    requires DistinctKeys(cfg)
    ensures patch == PatchFor(cfg, kind, seen, d)
    ensures force ==> seen.Some?
  {
    var labels, annotations, f := BuildMetadata(seen, kind, cfg);
    patch, force := KubeObject(labels, annotations + EntryPointsAnnotation(kind, d), d.spec), f;
  }

  class Api {
    var cluster: Cluster
    ghost var faults: nat

    constructor (c: Cluster)
      ensures cluster == c && faults == 0
    {
      cluster := c;
      faults := 0;
    }

    /** Exactly the store of `kind` may differ, and it is now `s`. */
    twostate predicate OnlyStore(kind: Kind, s: Store)
      reads this
    {
      cluster == old(cluster)[kind := s]
    }

    method Get(kind: Kind, n: string) returns (r: Lookup)
      modifies this`faults
      ensures faults == old(faults) + if r.Failed? then 1 else 0
      ensures r.Found? ==> Phases.Get(cluster[kind], n) == Some(r.o)
      ensures r.NotFound? ==> n !in cluster[kind]
    {
      var down: bool := *;
      if down { faults := faults + 1; return Failed; }
      r := if n in cluster[kind] then Found(cluster[kind][n]) else NotFound;
    }

    method Create(kind: Kind, n: string, o: KubeObject) returns (ok: bool)
      requires n !in cluster[kind]
      modifies this
      ensures faults == old(faults) + if ok then 0 else 1
      ensures ok ==> OnlyStore(kind, old(cluster[kind])[n := o])
      ensures !ok ==> cluster == old(cluster) || OnlyStore(kind, old(cluster[kind])[n := o])
    {
      var down, lost: bool := *, *;
      if !down { cluster := cluster[kind := cluster[kind][n := o]]; }
      ok := !down && !lost;
      if !ok { faults := faults + 1; }
    }

    method Patch(kind: Kind, n: string, patch: KubeObject) returns (ok: bool)
      modifies this
      ensures faults == old(faults) + if ok then 0 else 1
      ensures ok ==> OnlyStore(kind, old(cluster[kind])[n := Merge(Phases.Get(old(cluster[kind]), n), patch)])
      ensures !ok ==>
                cluster == old(cluster) || OnlyStore(kind, old(cluster[kind])[n :=
                  Merge(Phases.Get(old(cluster[kind]), n), patch)])
    {
      var down, lost: bool := *, *;
      if !down { cluster := cluster[kind := cluster[kind][n := Merge(Phases.Get(cluster[kind], n), patch)]]; }
      ok := !down && !lost;
      if !ok { faults := faults + 1; }
    }

    /** Deleting what is not there counts as done. */
    method Delete(kind: Kind, n: string) returns (ok: bool)
      modifies this
      ensures faults == old(faults) + if ok then 0 else 1
      ensures ok ==> OnlyStore(kind, old(cluster[kind]) - {n})
      ensures !ok ==> cluster == old(cluster) || OnlyStore(kind, old(cluster[kind]) - {n})
    {
      var down, lost: bool := *, *;
      if !down { cluster := cluster[kind := cluster[kind] - {n}]; }
      ok := !down && !lost;
      if !ok { faults := faults + 1; }
    }

    /** The objects that carry the managed label. */
    method List(kind: Kind, cfg: MetadataConfig) returns (r: Option<Store>)
      modifies this`faults
      ensures faults == old(faults) + if r.None? then 1 else 0
      ensures r.Some? ==> r.value == Listed(cfg, cluster[kind])
    {
      var down: bool := *;
      if down { faults := faults + 1; return None; }
      r := Some(Listed(cfg, cluster[kind]));
    }

    // -------------------------------------------------------------------------------------------

    /** Up to five attempts at the same patch; only forced conflicts and transient errors are retried. */
    method ApplyWithRetry(kind: Kind, n: string, patch: KubeObject, useForce: bool) returns (ok: bool)
      modifies this
      ensures old(faults) <= faults <= old(faults) + (if ok then 4 else 5) && (!ok ==> faults > old(faults))
      ensures ok ==> OnlyStore(kind, old(cluster[kind])[n := Merge(Phases.Get(old(cluster[kind]), n), patch)])
      ensures !ok ==>
                cluster == old(cluster) || OnlyStore(kind, old(cluster[kind])[n :=
                  Merge(Phases.Get(old(cluster[kind]), n), patch)])
    {
      ghost var before := cluster[kind];
      ghost var merged := before[n := Merge(Phases.Get(before, n), patch)];
      ok := false;
      for i := 0 to 5
        invariant !ok && faults == old(faults) + i
        invariant cluster == old(cluster) || OnlyStore(kind, merged)
      {
        MergeTwice(Phases.Get(before, n), patch);
        assert merged[n := Merge(Phases.Get(merged, n), patch)] == merged;
        ok := Patch(kind, n, patch);
        if ok { return; }
        var conflict, transient, cancelled: bool := *, *, *;
        if !((conflict && useForce) || transient) || cancelled { return; }
      }
    }

    /** Get, then create or patch. */
    method ApplyObject(cfg: MetadataConfig, kind: Kind, n: string, d: Desired, ssaForce: bool) returns (ok: bool)
      requires DistinctKeys(cfg)
      modifies this
      ensures faults >= old(faults) && (!ok ==> faults > old(faults))
      ensures ok ==> OnlyStore(kind, old(cluster[kind])[n := Written(cfg, kind, Phases.Get(old(cluster[kind]), n), d)])
      ensures !ok ==>
                cluster == old(cluster) || OnlyStore(kind, old(cluster[kind])[n :=
                  Written(cfg, kind, Phases.Get(old(cluster[kind]), n), d)])
    {
      var seen := Get(kind, n);
      if seen.Failed? { return false; }
      ghost var existing := Phases.Get(cluster[kind], n);
      MergeIsWritten(cfg, kind, existing, d);
      if seen.NotFound? {
        var o, _ := BuildPatch(cfg, kind, None, d);
        MergeNone(o);
        ok := Create(kind, n, o);
      } else {
        var patch, force := BuildPatch(cfg, kind, Some(seen.o), d);
        ok := ApplyWithRetry(kind, n, patch, ssaForce || force);
      }
    }

    /** Write every object, in whatever order the map yields them; stop at the first failure. */
    method ApplyDesired(st: Settings, kind: Kind, plan: Plan, ssaForce: bool) returns (ok: bool)
      requires DistinctKeys(st.meta) && plan.bad !! plan.want.Keys
      modifies this
      ensures faults >= old(faults) && (!ok ==> faults > old(faults) || plan.bad != {})
      ensures st.readOnly ==> ok && cluster == old(cluster)
      ensures !st.readOnly && ok ==>
                plan.bad == {} && OnlyStore(kind, Applied(st.meta, kind, plan.want, plan.want.Keys, old(cluster[kind])))
      ensures !ok ==>
                exists done :: done <= plan.want.Keys && OnlyStore(kind,
                  Applied(st.meta, kind, plan.want, done, old(cluster[kind])))
    {
      if st.readOnly { return true; }
      ghost var s0 := cluster[kind];
      ghost var done: set<string> := {};
      var todo := plan.want.Keys + plan.bad;
      AppliedNothing(st.meta, kind, plan.want, s0);
      assert cluster == old(cluster)[kind := s0];
      while todo != {}
        invariant todo <= plan.want.Keys + plan.bad && plan.bad <= todo && done == plan.want.Keys - todo
        invariant faults >= old(faults)
        invariant OnlyStore(kind, Applied(st.meta, kind, plan.want, done, s0))
        decreases todo
      {
        var n :| n in todo;
        if n in plan.bad { return false; }
        ghost var s := cluster[kind];
        assert s == Applied(st.meta, kind, plan.want, done, s0);
        ghost var more := done + {n};
        assert s[n := Written(st.meta, kind, Phases.Get(s, n), plan.want[n])] ==
          Applied(st.meta, kind, plan.want, more, s0)
        by {
          AppliedOneMore(st.meta, kind, plan.want, done, n, s0);
        }
        ReplaceTwice(old(cluster), kind, s, Applied(st.meta, kind, plan.want, more, s0));
        ok := ApplyObject(st.meta, kind, n, plan.want[n], ssaForce);
        assert more <= plan.want.Keys;
        if !ok { return; }
        todo, done := todo - {n}, more;
      }
      assert done == plan.want.Keys;
      ok := true;
    }

    /** Delete, or schedule for deletion, every listed object that is stale. */
    method CollectStale(st: Settings, kind: Kind, desired: set<string>) returns (ok: bool, scheduled: set<string>)
      modifies this
      ensures faults >= old(faults) && (!ok ==> faults > old(faults))
      ensures st.readOnly || st.grace ==> cluster == old(cluster)
      ensures scheduled == if ok && st.grace && !st.readOnly then Stale(st.meta, desired, cluster[kind]) else {}
      ensures ok && !st.readOnly && !st.grace ==>
                OnlyStore(kind, old(cluster[kind]) - Stale(st.meta, desired, old(cluster[kind])))
      // what goes, read off the fields: the label is equal and so is the annotation, a missing one counting as empty
      ensures ok && !st.readOnly && !st.grace ==>
                forall n :: n in old(cluster[kind]) ==>
                  var o := old(cluster[kind])[n];
                  && (n !in cluster[kind] <==>
                        && n !in desired && st.meta.labelKey in o.labels
                          && o.labels[st.meta.labelKey] == st.meta.labelValue
                        && (if st.meta.annoKey in o.annotations then o.annotations[st.meta.annoKey] == st.meta.annoValue
                            else st.meta.annoValue == ""))
                  && (n in cluster[kind] ==> cluster[kind][n] == o)
      ensures exists gone ::
                gone <= Stale(st.meta, desired, old(cluster[kind])) && OnlyStore(kind, old(cluster[kind]) - gone)
    {
      RemoveOneMore(cluster[kind], {}, "");
      var listed := List(kind, st.meta);
      if listed.None? { return false, {}; }
      // staleManagedName: the label was checked by the listing
      var stale := set n | n in listed.value && n !in desired
        && FieldText(listed.value[n].annotations, st.meta.annoKey) == st.meta.annoValue;
      assert stale == Stale(st.meta, desired, cluster[kind]);
      if st.readOnly { return true, {}; }
      if st.grace { return true, stale; }
      ok := DeleteAll(kind, stale);
      scheduled := {};
    }

    /** Delete the given names one by one; stop at the first failure. */
    method DeleteAll(kind: Kind, names: set<string>) returns (ok: bool)
      modifies this
      ensures faults >= old(faults) && (!ok ==> faults > old(faults))
      ensures ok ==> OnlyStore(kind, old(cluster[kind]) - names)
      ensures !ok ==> exists gone :: gone <= names && OnlyStore(kind, old(cluster[kind]) - gone)
    {
      ghost var s0 := cluster[kind];
      ghost var gone: set<string> := {};
      RemoveOneMore(s0, {}, "");
      var todo := names;
      while todo != {}
        invariant todo <= names && gone == names - todo && faults >= old(faults)
        invariant OnlyStore(kind, s0 - gone)
        decreases todo
      {
        var n :| n in todo;
        ghost var more := gone + {n};
        assert more <= names;
        RemoveOneMore(s0, gone, n);
        ReplaceTwice(old(cluster), kind, s0 - gone, s0 - more);
        ok := Delete(kind, n);
        if !ok { return; }
        todo, gone := todo - {n}, more;
      }
      assert gone == names;
      ok := true;
    }

    /** Write, then collect. */
    method WriteAndCollect(st: Settings, kind: Kind, plan: Plan, ssaForce: bool)
      returns (ok: bool, scheduled: set<string>)
      requires DistinctKeys(st.meta) && plan.bad !! plan.want.Keys
      modifies this
      ensures faults >= old(faults) && (!ok ==> faults > old(faults) || plan.bad != {})
      ensures st.readOnly ==> cluster == old(cluster) && scheduled == {}
      ensures ok && !st.readOnly ==> plan.bad == {}
      ensures ok && !st.readOnly && !st.grace ==>
                cluster[kind] == PhaseResult(st.meta, kind, plan.want, old(cluster[kind]))
      ensures ok && !st.readOnly && st.grace ==>
                && cluster[kind] == Applied(st.meta, kind, plan.want, plan.want.Keys, old(cluster[kind]))
                && scheduled == Stale(st.meta, plan.want.Keys, cluster[kind])
      ensures OnlyStore(kind, cluster[kind]) && Reached(st.meta, kind, plan.want, plan.bad == {}, old(cluster[kind]),
              cluster[kind])
    {
      ghost var s0 := cluster[kind];
      AppliedNothing(st.meta, kind, plan.want, s0);
      ReplaceTwice(cluster, kind, s0, s0);
      scheduled := {};
      ok := ApplyDesired(st, kind, plan, ssaForce);
      if !ok { return; }
      ghost var middle := cluster;
      var desired := plan.want.Keys + plan.bad;
      assert !st.readOnly ==> desired == plan.want.Keys;
      ok, scheduled := CollectStale(st, kind, desired);
      assert cluster == middle[kind := cluster[kind]];
      ReplaceTwice(old(cluster), kind, middle[kind], cluster[kind]);
    }

    /** A whole phase. */
    method ReconcileKind(st: Settings, kind: Kind, plan: Plan, ssaForce: bool)
      returns (ok: bool, scheduled: set<string>)
      requires DistinctKeys(st.meta) && plan.bad !! plan.want.Keys
      modifies this
      ensures faults >= old(faults) && (!ok ==> faults > old(faults) || plan.bad != {})
      // on success exactly the demanded objects are left, or what is stale is scheduled to go
      ensures ok && !st.readOnly ==> plan.bad == {}
      ensures ok && !st.readOnly && !st.grace ==>
                OnlyStore(kind, PhaseResult(st.meta, kind, plan.want, old(cluster[kind])))
      ensures ok && !st.readOnly && st.grace ==>
                && OnlyStore(kind, Applied(st.meta, kind, plan.want, plan.want.Keys, old(cluster[kind])))
                && scheduled == Stale(st.meta, plan.want.Keys, old(cluster[kind]))
      ensures st.readOnly ==> cluster == old(cluster) && scheduled == {}
      // whatever fails, only this kind is touched, nothing desired or foreign is lost, deletes come last
      ensures OnlyStore(kind, cluster[kind])
      ensures Reached(st.meta, kind, plan.want, plan.bad == {}, old(cluster[kind]), cluster[kind])
      ensures SafePoint(st.meta, kind, plan.want, old(cluster[kind]), cluster[kind])
    {
      ok, scheduled := WriteAndCollect(st, kind, plan, ssaForce);
      StaleUnaffected(st.meta, kind, plan.want, plan.want.Keys, old(cluster[kind]));
      ReachedIsSafe(st.meta, kind, plan.want, plan.bad == {}, old(cluster[kind]), cluster[kind]);
    }

    /** Routers are all transformed before anything is written; one that cannot be stops the phase cold. */
    method ReconcileRouters(st: Settings, routers: map<string, Raw>, transform: (string, Raw) -> Option<Desired>)
      returns (ok: bool, scheduled: set<string>)
      requires DistinctKeys(st.meta)
      modifies this
      ensures !Transforms(routers, transform) ==> !ok && cluster == old(cluster) && faults == old(faults)
      ensures faults >= old(faults) && (Transforms(routers, transform) && !ok ==> faults > old(faults))
      ensures st.readOnly ==> cluster == old(cluster) && scheduled == {}
      ensures ok && !st.readOnly && st.grace ==>
                && OnlyStore(IngressRoute, Applied(st.meta, IngressRoute, RouteWants(routers, transform), routers.Keys,
                  old(cluster[IngressRoute])))
                && scheduled == Stale(st.meta, routers.Keys, old(cluster[IngressRoute]))
      ensures ok && !st.readOnly && !st.grace ==>
                OnlyStore(IngressRoute, PhaseResult(st.meta, IngressRoute, RouteWants(routers, transform),
                  old(cluster[IngressRoute])))
      ensures OnlyStore(IngressRoute, cluster[IngressRoute])
      ensures Reached(st.meta, IngressRoute, RouteWants(routers, transform), true, old(cluster[IngressRoute]),
              cluster[IngressRoute])
      ensures SafePoint(st.meta, IngressRoute, RouteWants(routers, transform), old(cluster[IngressRoute]),
              cluster[IngressRoute])
    {
      var want: Wanted, failed := map[], false;
      var rest := routers.Keys;
      ghost var s0 := cluster[IngressRoute];
      while rest != {}
        invariant rest <= routers.Keys
        invariant failed <==> exists n :: n in routers && n !in rest && transform(n, routers[n]).None?
        invariant want == map n | n in routers && n !in rest
                  && transform(n, routers[n]).Some? :: transform(n, routers[n]).value
        decreases rest
      {
        var n :| n in rest;
        rest := rest - {n};
        var u := transform(n, routers[n]);
        if u.None? { failed := true; } else { want := want[n := u.value]; }
      }
      scheduled := {};
      assert want == RouteWants(routers, transform);
      UntouchedIsSafe(st.meta, IngressRoute, want, s0);
      UntouchedIsReached(st.meta, IngressRoute, want, true, s0);
      ReplaceTwice(cluster, IngressRoute, s0, s0);
      if failed { return false, {}; }
      assert want.Keys == routers.Keys;
      ok, scheduled := ReconcileKind(st, IngressRoute, Plan(want, {}), false);
    }
  }

  predicate Transforms(routers: map<string, Raw>, transform: (string, Raw) -> Option<Desired>) {
    forall n :: n in routers ==> transform(n, routers[n]).Some?
  }

  function RouteWants(routers: map<string, Raw>, transform: (string, Raw) -> Option<Desired>): Wanted {
    map n | n in routers && transform(n, routers[n]).Some? :: transform(n, routers[n]).value
  }
}
