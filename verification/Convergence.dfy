/**
  The whole controller: poll, detect, sanitise, apply and collect, run after run
  (internal/controller/loop.go, internal/controller/apply.go).

  Decoding a body, building a route from a router and rewriting a service are parameters; the claims
  hold for every choice of them, and for both forms of the reconcile (`parallel`).
 */
module Convergence {
  import opened Results
  import opened JsonValues
  import opened Objects
  import opened Phases
  import opened Text
  import opened StringMaps
  import Loop = PollLoop
  import Names = Renaming
  import Parallel = ParallelRun
  import Rec = Reconciler

  datatype Env = Env(
    meta: MetadataConfig,
    parallel: bool,
    hash: Loop.Digest,
    san: Namer,
    parse: string -> Option<Names.Config>,
    route: (string, Raw) -> Option<Desired>,
    service: Raw -> Raw)

  /** Every document decodes to an object or to `null`. */
  predicate Documents(defs: map<string, Raw>) {
    forall n :: n in defs ==> DecodeObject(defs[n]).Some?
  }

  function DocumentWants(defs: map<string, Raw>): Wanted {
    map n | n in defs && DecodeObject(defs[n]).Some? :: Desired(defs[n].v, "")
  }

  function DocumentPlan(defs: map<string, Raw>): (p: Rec.Plan)
    ensures p.bad !! p.want.Keys
    ensures p.bad == {} <==> Documents(defs)
  {
    var bad := set n | n in defs && DecodeObject(defs[n]).None?;
    assert bad == {} ==> Documents(defs) by {
      if bad == {} { forall n | n in defs ensures DecodeObject(defs[n]).Some? { assert n !in bad; } }
    }
    Rec.Plan(DocumentWants(defs), bad)
  }

  function Processed(env: Env, services: map<string, Raw>): map<string, Raw> {
    map n | n in services :: env.service(services[n])
  }

  /** The objects a sanitised configuration demands, kind by kind, or None if it cannot be carried out. */
  function DemandOf(env: Env, c: Names.Config): Option<seq<(Kind, Wanted)>> {
    var services := Processed(env, c.services);
    if !Documents(c.middlewares) || !Rec.Transforms(c.routers, env.route) || !Documents(c.transports)
      || !Documents(services) then None
    else Some([(Middleware, DocumentWants(c.middlewares)), (IngressRoute, Rec.RouteWants(c.routers, env.route)),
               (ServersTransport, DocumentWants(c.transports)), (TraefikService, DocumentWants(services))])
  }

  ghost function SanitizedBody(env: Env, body: string): Option<Names.Config> {
    match env.parse(body)
    case None => None
    case Some(cfg) => Names.Sanitized(env.san, cfg)
  }

  /** The objects a body demands. */
  ghost function Demand(env: Env, body: string): Option<seq<(Kind, Wanted)>> {
    match SanitizedBody(env, body)
    case None => None
    case Some(c) => DemandOf(env, c)
  }

  /** The cluster after carrying out `body`; this is what both forms of the reconcile compute. */
  ghost function Reconciled(env: Env, body: string, c: Cluster): Cluster
    requires Demand(env, body).Some?
  {
    RunPhases(env.meta, Demand(env, body).value, c)
  }

  // ---------------------------------------------------------------------------------------------
  // Where a reconcile can stop

  /** What a sanitised configuration wants of a kind, as far as it can be carried out; nothing of other kinds. */
  function WantedOf(env: Env, c: Names.Config, k: Kind): Wanted {
    match k
    case Middleware => DocumentWants(c.middlewares)
    case IngressRoute => Rec.RouteWants(c.routers, env.route)
    case ServersTransport => DocumentWants(c.transports)
    case TraefikService => DocumentWants(Processed(env, c.services))
    case _ => map[]
  }

  /** Every definition behind kind `k` can be turned into an object. */
  predicate Feasible(env: Env, c: Names.Config, k: Kind) {
    match k
    case Middleware => Documents(c.middlewares)
    case IngressRoute => Rec.Transforms(c.routers, env.route)
    case ServersTransport => Documents(c.transports)
    case TraefikService => Documents(Processed(env, c.services))
    case _ => true
  }

  /** What the phase of kind `k` makes of a store when it runs to its end. */
  ghost function Completed(env: Env, c: Names.Config, k: Kind, before: Store): Store {
    PhaseResult(env.meta, k, WantedOf(env, c, k), before)
  }

  /** What it can leave wherever it stops. Routers are all transformed before anything is written. */
  ghost predicate Stops(env: Env, c: Names.Config, k: Kind, before: Store, now: Store) {
    if k.IngressRoute? && !Feasible(env, c, k) then now == before
    else Reached(env.meta, k, WantedOf(env, c, k), Feasible(env, c, k), before, now)
  }

  /** One kind of a sequential reconcile that is in its phase number `j`; `whole` if deletes are carried out at once. */
  ghost predicate KindDuring(env: Env, c: Names.Config, whole: bool, j: nat, k: Kind, before: Store, now: Store) {
    && (Rank(k) < j ==>
      Stops(env, c, k, before, now) && (whole ==> Feasible(env, c, k) && now == Completed(env, c, k, before)))
    && (Rank(k) == j ==> Stops(env, c, k, before, now))
    && (Rank(k) > j ==> now == before)
  }

  ghost predicate During(env: Env, c: Names.Config, whole: bool, j: nat, before: Cluster, now: Cluster) {
    forall k: Kind :: KindDuring(env, c, whole, j, k, before[k], now[k])
  }

  /** The same between two phases: those before number `j` are over, the others have not begun. */
  ghost predicate KindBetween(env: Env, c: Names.Config, whole: bool, j: nat, k: Kind, before: Store, now: Store) {
    if Rank(k) < j then Stops(env, c, k, before, now) && (whole ==>
      Feasible(env, c, k) && now == Completed(env, c, k, before))
    else now == before
  }

  ghost predicate Between(env: Env, c: Names.Config, whole: bool, j: nat, before: Cluster, now: Cluster) {
    forall k: Kind :: KindBetween(env, c, whole, j, k, before[k], now[k])
  }

  /** One kind of a parallel reconcile. */
  ghost predicate KindLeft(env: Env, c: Names.Config, k: Kind, before: Store, now: Store) {
    if Rank(k) < PHASES then Stops(env, c, k, before, now) else now == before
  }

  /** The clusters a reconcile of configuration `c` can leave behind when it fails. */
  ghost predicate CanLeave(env: Env, c: Names.Config, before: Cluster, now: Cluster) {
    if env.parallel then forall k: Kind :: KindLeft(env, c, k, before[k], now[k])
    else exists j: nat :: j < PHASES && During(env, c, true, j, before, now)
  }

  lemma StopsIsSafe(env: Env, c: Names.Config, k: Kind, before: Store, now: Store)
    requires KindLeft(env, c, k, before, now)
    ensures SafePoint(env.meta, k, WantedOf(env, c, k), before, now)
  {
    if now == before { UntouchedIsSafe(env.meta, k, WantedOf(env, c, k), before); }
    else { ReachedIsSafe(env.meta, k, WantedOf(env, c, k), Feasible(env, c, k), before, now); }
  }

  lemma UntouchedStops(env: Env, c: Names.Config, k: Kind, s: Store)
    ensures Stops(env, c, k, s, s)
  {
    UntouchedIsReached(env.meta, k, WantedOf(env, c, k), Feasible(env, c, k), s);
  }

  lemma DuringIsLeft(env: Env, c: Names.Config, whole: bool, j: nat, k: Kind, before: Store, now: Store)
    requires KindDuring(env, c, whole, j, k, before, now) && j < PHASES
    ensures KindLeft(env, c, k, before, now)
  {
    UntouchedStops(env, c, k, before);
  }

  /** Every kind is at a safe point of its own phase, and kinds without a phase are as they were. */
  ghost predicate SafeCluster(env: Env, c: Names.Config, before: Cluster, now: Cluster) {
    forall k: Kind ::
      && SafePoint(env.meta, k, WantedOf(env, c, k), before[k], now[k])
      && (Rank(k) == PHASES ==> now[k] == before[k])
  }

  lemma DuringIsSafe(env: Env, c: Names.Config, whole: bool, j: nat, before: Cluster, now: Cluster)
    requires During(env, c, whole, j, before, now) && j < PHASES
    ensures SafeCluster(env, c, before, now)
  {
    forall k: Kind
      ensures SafePoint(env.meta, k, WantedOf(env, c, k), before[k], now[k])
              && (Rank(k) == PHASES ==> now[k] == before[k])
    {
      assert KindDuring(env, c, whole, j, k, before[k], now[k]);
      DuringIsLeft(env, c, whole, j, k, before[k], now[k]);
      StopsIsSafe(env, c, k, before[k], now[k]);
    }
  }

  /** Whatever a failed reconcile leaves is safe, in both forms. */
  lemma WhatIsLeftIsSafe(env: Env, c: Names.Config, before: Cluster, now: Cluster)
    requires CanLeave(env, c, before, now)
    ensures SafeCluster(env, c, before, now)
  {
    if env.parallel {
      forall k: Kind
        ensures SafePoint(env.meta, k, WantedOf(env, c, k), before[k], now[k])
                && (Rank(k) == PHASES ==> now[k] == before[k])
      {
        assert KindLeft(env, c, k, before[k], now[k]);
        StopsIsSafe(env, c, k, before[k], now[k]);
      }
    } else {
      var j: nat :| j < PHASES && During(env, c, true, j, before, now);
      DuringIsSafe(env, c, true, j, before, now);
    }
  }

  // ---------------------------------------------------------------------------------------------
  // The sequential reconcile

  lemma DemandIsFour(env: Env, c: Names.Config)
    ensures DemandOf(env, c).Some? <==> forall k: Kind :: Feasible(env, c, k)
    ensures DemandOf(env, c).Some? ==>
              DemandOf(env, c).value ==
                [(Middleware, WantedOf(env, c, Middleware)), (IngressRoute, WantedOf(env, c, IngressRoute)),
                 (ServersTransport, WantedOf(env, c, ServersTransport)),
                   (TraefikService, WantedOf(env, c, TraefikService))]
  {
    if forall k: Kind :: Feasible(env, c, k) {
      assert Feasible(env, c, Middleware) && Feasible(env, c, IngressRoute) && Feasible(env, c, ServersTransport)
        && Feasible(env, c, TraefikService);
    }
  }

  /** The demand, kind by kind: running its phases completes each kind that has one. */
  lemma RunPhasesByKind(env: Env, c: Names.Config, c0: Cluster, k: Kind)
    requires DemandOf(env, c).Some?
    ensures RunPhases(env.meta, DemandOf(env, c).value, c0)[k] == if Rank(k) < PHASES then Completed(env, c, k, c0[k])
            else c0[k]
  {
    DemandIsFour(env, c);
    var d := DemandOf(env, c).value;
    Parallel.SequentialByKind(env.meta, d, c0, k);
    if Rank(k) < PHASES { assert d[Rank(k)] == (k, WantedOf(env, c, k)); }
  }

  lemma AllOver(env: Env, c: Names.Config, c0: Cluster, now: Cluster)
    requires Between(env, c, true, PHASES, c0, now)
    ensures DemandOf(env, c).Some? && now == RunPhases(env.meta, DemandOf(env, c).value, c0)
  {
    forall k: Kind ensures Feasible(env, c, k) { assert KindBetween(env, c, true, PHASES, k, c0[k], now[k]); }
    DemandIsFour(env, c);
    var want := RunPhases(env.meta, DemandOf(env, c).value, c0);
    forall k: Kind ensures now[k] == want[k] {
      assert KindBetween(env, c, true, PHASES, k, c0[k], now[k]);
      RunPhasesByKind(env, c, c0, k);
    }
    assert now.Keys == want.Keys;
  }

  lemma NothingBegun(env: Env, c: Names.Config, whole: bool, c0: Cluster)
    ensures Between(env, c, whole, 0, c0, c0)
  {
    forall k: Kind ensures KindBetween(env, c, whole, 0, k, c0[k], c0[k]) {}
  }

  /** A phase that stops somewhere takes the cluster from between phases into that phase. */
  lemma PhaseStops(env: Env, c: Names.Config, whole: bool, k: Kind, c0: Cluster, mid: Cluster, now: Cluster)
    requires Rank(k) < PHASES && Between(env, c, whole, Rank(k), c0, mid)
    requires now == mid[k := now[k]] && Stops(env, c, k, mid[k], now[k])
    ensures During(env, c, whole, Rank(k), c0, now)
  {
    forall i: Kind ensures KindDuring(env, c, whole, Rank(k), i, c0[i], now[i]) {
      assert KindBetween(env, c, whole, Rank(k), i, c0[i], mid[i]);
      if i != k { assert now[i] == mid[i] && Rank(i) != Rank(k); }
    }
  }

  /** A phase that succeeds takes it on to the next. */
  lemma PhaseEnds(env: Env, c: Names.Config, whole: bool, k: Kind, c0: Cluster, now: Cluster)
    requires Rank(k) < PHASES && During(env, c, whole, Rank(k), c0, now)
    requires whole ==> Feasible(env, c, k) && now[k] == Completed(env, c, k, c0[k])
    ensures Between(env, c, whole, Rank(k) + 1, c0, now)
  {
    forall i: Kind ensures KindBetween(env, c, whole, Rank(k) + 1, i, c0[i], now[i]) {
      assert KindDuring(env, c, whole, Rank(k), i, c0[i], now[i]);
      if Rank(i) == Rank(k) { assert i == k; }
    }
  }

  predicate Whole(st: Rec.Settings) { !st.readOnly && !st.grace }

  /** With a grace period a phase writes everything, and schedules what is stale instead of deleting it. */
  ghost predicate Postponed(env: Env, c: Names.Config, k: Kind, before: Store, now: Store, scheduled: set<string>) {
    var want := WantedOf(env, c, k);
    && Feasible(env, c, k) && now == Applied(env.meta, k, want, want.Keys, before)
    && scheduled == Stale(env.meta, want.Keys, before)
  }

  /** The phase of one kind. */
  method RunPhase(env: Env, st: Rec.Settings, api: Rec.Api, c: Names.Config, k: Kind, ssaForce: bool)
    returns (ok: bool, scheduled: set<string>)
    requires st.meta == env.meta && DistinctKeys(env.meta) && Rank(k) < PHASES
    modifies api
    ensures ok && !st.readOnly && !st.grace ==>
              Feasible(env, c, k) && api.cluster[k] == Completed(env, c, k, old(api.cluster)[k])
    ensures ok && st.grace && !st.readOnly ==> Postponed(env, c, k, old(api.cluster)[k], api.cluster[k], scheduled)
    ensures api.faults >= old(api.faults) && (!ok ==> api.faults > old(api.faults) || !Feasible(env, c, k))
    ensures st.readOnly ==> api.cluster == old(api.cluster)
    ensures api.cluster == old(api.cluster)[k := api.cluster[k]]
            && Stops(env, c, k, old(api.cluster)[k], api.cluster[k])
  {
    if k == IngressRoute {
      ok, scheduled := api.ReconcileRouters(st, c.routers, env.route);
      assert Feasible(env, c, k) ==> WantedOf(env, c, k).Keys == c.routers.Keys;
    } else {
      var plan := if k == Middleware then DocumentPlan(c.middlewares)
                  else if k == ServersTransport then DocumentPlan(c.transports)
                  else DocumentPlan(Processed(env, c.services));
      assert plan.want == WantedOf(env, c, k) && (plan.bad == {} <==> Feasible(env, c, k));
      ok, scheduled := api.ReconcileKind(st, k, plan, ssaForce);
    }
  }

  type Schedule = map<Kind, set<string>>

  /** Every phase before place `j` has postponed its deletions to the schedule. */
  ghost predicate PostponedBefore(env: Env, c: Names.Config, j: nat, before: Cluster, now: Cluster, schedule: Schedule)
  {
    forall k: Kind :: Rank(k) < j ==> KindPostponed(env, c, k, before[k], now[k], schedule)
  }

  ghost predicate KindPostponed(env: Env, c: Names.Config, k: Kind, before: Store, now: Store, schedule: Schedule) {
    k in schedule && Postponed(env, c, k, before, now, schedule[k])
  }

  lemma OneMorePostponed(env: Env, c: Names.Config, k: Kind, c0: Cluster, mid: Cluster, now: Cluster,
                         schedule: Schedule, scheduled: set<string>)
    requires Rank(k) < PHASES && PostponedBefore(env, c, Rank(k), c0, mid, schedule)
    requires now == mid[k := now[k]] && mid[k] == c0[k] && Postponed(env, c, k, mid[k], now[k], scheduled)
    ensures PostponedBefore(env, c, Rank(k) + 1, c0, now, schedule[k := scheduled])
  {
    forall i: Kind | Rank(i) < Rank(k) + 1 ensures KindPostponed(env, c, i, c0[i], now[i], schedule[k := scheduled]) {
      if i != k { assert KindPostponed(env, c, i, c0[i], mid[i], schedule); }
    }
  }

  /** The same, in its place among the phases. */
  method RunPhaseInOrder(env: Env, st: Rec.Settings, api: Rec.Api, c: Names.Config, k: Kind, ssaForce: bool,
                         schedule: Schedule,
                         ghost c0: Cluster)
    returns (ok: bool, out: Schedule)
    requires st.meta == env.meta && DistinctKeys(env.meta) && Rank(k) < PHASES
    requires Between(env, c, Whole(st), Rank(k), c0, api.cluster)
    requires st.grace && !st.readOnly ==> PostponedBefore(env, c, Rank(k), c0, api.cluster, schedule)
    modifies api
    ensures During(env, c, Whole(st), Rank(k), c0, api.cluster)
    ensures ok ==> Between(env, c, Whole(st), Rank(k) + 1, c0, api.cluster)
    ensures ok && st.grace && !st.readOnly ==> PostponedBefore(env, c, Rank(k) + 1, c0, api.cluster, out)
    ensures api.faults >= old(api.faults) && (!ok ==> api.faults > old(api.faults) || DemandOf(env, c).None?)
    ensures st.readOnly ==> api.cluster == old(api.cluster)
  {
    DemandIsFour(env, c);
    ghost var mid := api.cluster;
    assert KindBetween(env, c, Whole(st), Rank(k), k, c0[k], mid[k]);
    var scheduled;
    ok, scheduled := RunPhase(env, st, api, c, k, ssaForce);
    out := schedule[k := scheduled];
    PhaseStops(env, c, Whole(st), k, c0, mid, api.cluster);
    if ok {
      PhaseEnds(env, c, Whole(st), k, c0, api.cluster);
      if st.grace && !st.readOnly { OneMorePostponed(env, c, k, c0, mid, api.cluster, schedule, scheduled); }
    }
  }

  /** The sequential reconcile of a sanitised configuration: phase after phase, stopping at the first that fails. */
  method ReconcileSequentially(env: Env, st: Rec.Settings, api: Rec.Api, c: Names.Config, ssaForce: bool)
    returns (ok: bool, schedule: Schedule)
    requires st.meta == env.meta && DistinctKeys(env.meta)
    modifies api
    ensures ok && !st.readOnly && !st.grace ==>
              DemandOf(env, c).Some? && api.cluster == RunPhases(env.meta, DemandOf(env, c).value, old(api.cluster))
    ensures ok && st.grace && !st.readOnly ==> PostponedBefore(env, c, PHASES, old(api.cluster), api.cluster, schedule)
    // read off the configuration: its documents are the specs, and without a grace period nothing else is marked
    ensures ok && !st.readOnly ==> SpecsInPlace(env, c, api.cluster)
    ensures ok && !st.readOnly && !st.grace ==> NothingElseMarked(env, c, api.cluster)
    ensures !ok ==> api.faults > old(api.faults) || DemandOf(env, c).None?
    ensures st.readOnly ==> api.cluster == old(api.cluster)
    // whichever phase fails, at whichever call: the phases before it are complete and those after it have not begun
    ensures exists j: nat :: j < PHASES && During(env, c, Whole(st), j, old(api.cluster), api.cluster)
  {
    ghost var c0 := api.cluster;
    NothingBegun(env, c, Whole(st), c0);
    schedule := map[];
    ok, schedule := RunPhaseInOrder(env, st, api, c, Middleware, ssaForce, schedule, c0);
    if !ok { return; }
    ok, schedule := RunPhaseInOrder(env, st, api, c, IngressRoute, ssaForce, schedule, c0);
    if !ok { return; }
    ok, schedule := RunPhaseInOrder(env, st, api, c, ServersTransport, ssaForce, schedule, c0);
    if !ok { return; }
    ok, schedule := RunPhaseInOrder(env, st, api, c, TraefikService, ssaForce, schedule, c0);
    if ok && Whole(st) {
      AllOver(env, c, c0, api.cluster);
      CarriesIsFixpoint(env, c, c0);
      CarriesSpecs(env, c, api.cluster);
    }
    if ok && st.grace && !st.readOnly { PostponedSpecs(env, c, c0, api.cluster, schedule); }
  }

  /** What the loop does with a changed body, in the sequential form: decode, sanitise, reconcile. */
  method ApplyBody(env: Env, st: Rec.Settings, api: Rec.Api, body: string, ssaForce: bool) returns (ok: bool)
    requires st.meta == env.meta && DistinctKeys(env.meta) && !env.parallel
    modifies api
    ensures !st.readOnly && !st.grace ==>
              Moves(env, if ok then Loop.Applied(body) else Loop.ApplyFailed(body), old(api.cluster), api.cluster)
    ensures !ok ==> api.faults > old(api.faults) || Demand(env, body).None?
    ensures st.readOnly ==> api.cluster == old(api.cluster)
    ensures match SanitizedBody(env, body)
            case None => !ok && api.cluster == old(api.cluster)
            case Some(c) => SafeCluster(env, c, old(api.cluster), api.cluster)
  {
    var cfg := env.parse(body);
    if cfg.None? { return false; }
    var c := Names.SanitizeConfig(env.san, cfg.value);
    if c.None? { return false; }
    ghost var c0 := api.cluster;
    var schedule;
    ok, schedule := ReconcileSequentially(env, st, api, c.value, ssaForce);
    ghost var j: nat :| j < PHASES && During(env, c.value, Whole(st), j, c0, api.cluster);
    DuringIsSafe(env, c.value, Whole(st), j, c0, api.cluster);
  }

  // ---------------------------------------------------------------------------------------------
  // The parallel reconcile

  function TaskOf(env: Env, c: Names.Config, k: Kind): Parallel.Task {
    match k
    case IngressRoute => if Rec.Transforms(c.routers, env.route) then
      Parallel.Task(Rec.RouteWants(c.routers, env.route), {}) else Parallel.Broken
    case Middleware => var p := DocumentPlan(c.middlewares); Parallel.Task(p.want, p.bad)
    case ServersTransport => var p := DocumentPlan(c.transports); Parallel.Task(p.want, p.bad)
    case _ => var p := DocumentPlan(Processed(env, c.services)); Parallel.Task(p.want, p.bad)
  }

  /** The phases started for a sanitised configuration. */
  function JobOf(env: Env, c: Names.Config, reconcileMax: int): Parallel.Job {
    Parallel.Job(env.meta, reconcileMax,
                 map k: Kind | k in {Middleware, IngressRoute, ServersTransport, TraefikService} :: TaskOf(env, c, k))
  }

  lemma JobTasks(env: Env, c: Names.Config, reconcileMax: int)
    ensures var job := JobOf(env, c, reconcileMax);
            && Parallel.ValidJob(job)
            && (forall k: Kind :: k in job.tasks <==> Rank(k) < PHASES)
            && (forall k: Kind :: Rank(k) < PHASES ==>
                  if k.IngressRoute? && !Feasible(env, c, k) then job.tasks[k].Broken?
                  else
                    && job.tasks[k].Task? && job.tasks[k].want == WantedOf(env, c, k)
                    && (job.tasks[k].bad == {} <==> Feasible(env, c, k)))
  {
  }

  /** Every state of every parallel run is one that a failed reconcile can leave. */
  lemma ParallelStates(env: Env, c: Names.Config, reconcileMax: int, c0: Cluster, run: seq<Parallel.State>, i: nat)
    requires env.parallel && Parallel.IsRun(JobOf(env, c, reconcileMax), c0, run) && i < |run|
    ensures CanLeave(env, c, c0, run[i].cluster)
  {
    var job := JobOf(env, c, reconcileMax);
    JobTasks(env, c, reconcileMax);
    forall k: Kind ensures KindLeft(env, c, k, c0[k], run[i].cluster[k]) {
      Parallel.EveryStateIsSafe(job, c0, run, i, k);
    }
  }

  lemma StopsIsTaskStops(env: Env, c: Names.Config, reconcileMax: int, k: Kind, before: Store, now: Store)
    requires Rank(k) < PHASES
    ensures Parallel.HttpJob(JobOf(env, c, reconcileMax))
    ensures Stops(env, c, k, before, now) <==> Parallel.TaskStops(JobOf(env, c, reconcileMax), k, before, now)
  {
    JobTasks(env, c, reconcileMax);
  }

  /** A reconcile of configuration `c`, in the form that `env` says, that has failed, has returned, and left `now`. */
  ghost predicate FailedRun(env: Env, c: Names.Config, reconcileMax: int, c0: Cluster, run: seq<Parallel.State>,
                            now: Cluster)
  {
    && Parallel.RunIn(JobOf(env, c, reconcileMax), c0, !env.parallel, run)
    && var end := run[|run| - 1];
       && end.cluster == now && !Parallel.NothingFailed(end)
       && (if env.parallel then Parallel.Ended(end) else Parallel.RunningPhases(end) == {})
  }

  lemma SequentialLeft(env: Env, c: Names.Config, reconcileMax: int, c0: Cluster, now: Cluster, j: nat)
    returns (run: seq<Parallel.State>)
    requires !env.parallel && j < PHASES && During(env, c, true, j, c0, now)
    ensures FailedRun(env, c, reconcileMax, c0, run, now)
  {
    var k := KindAt(j);
    JobTasks(env, c, reconcileMax);
    var job := JobOf(env, c, reconcileMax);
    forall i: Kind
      ensures (Rank(i) < j ==> Parallel.CompletesAt(job, c0, now, i)) && (Rank(i) > j ==> now[i] == c0[i])
    {
      assert KindDuring(env, c, true, j, i, c0[i], now[i]);
    }
    assert KindDuring(env, c, true, j, k, c0[k], now[k]);
    StopsIsTaskStops(env, c, reconcileMax, k, c0[k], now[k]);
    run := Parallel.StopInOrder(job, c0, k, now);
    assert run[|run| - 1].pcs[Parallel.Kinded(k)].Failed?;
  }

  lemma ParallelLeft(env: Env, c: Names.Config, reconcileMax: int, c0: Cluster, now: Cluster)
    returns (run: seq<Parallel.State>)
    requires env.parallel && CanLeave(env, c, c0, now)
    ensures FailedRun(env, c, reconcileMax, c0, run, now)
  {
    var job := JobOf(env, c, reconcileMax);
    forall k: Kind ensures if Rank(k) < PHASES then Parallel.StopsAt(job, c0, now, k) else now[k] == c0[k] {
      assert KindLeft(env, c, k, c0[k], now[k]);
      JobTasks(env, c, reconcileMax);
      if Rank(k) < PHASES { StopsIsTaskStops(env, c, reconcileMax, k, c0[k], now[k]); }
    }
    JobTasks(env, c, reconcileMax);
    run := Parallel.StopAll(job, c0, now);
  }

  lemma SequentialStates(env: Env, c: Names.Config, reconcileMax: int, c0: Cluster, run: seq<Parallel.State>, i: nat)
    returns (j: nat)
    requires Parallel.RunIn(JobOf(env, c, reconcileMax), c0, true, run) && i < |run|
    ensures j < PHASES && During(env, c, true, j, c0, run[i].cluster)
  {
    var job, s := JobOf(env, c, reconcileMax), run[i];
    JobTasks(env, c, reconcileMax);
    Parallel.RunInv(job, c0, run, i);
    Parallel.RunOrderly(job, c0, run, i);
    j := LastBegun(job, c0, s);
    forall k: Kind ensures KindDuring(env, c, true, j, k, c0[k], s.cluster[k]) {
      KindInOrder(env, c, reconcileMax, c0, run, i, j, k);
    }
  }

  /** The last of the phases that have begun, or the first if none has. */
  lemma LastBegun(job: Parallel.Job, c0: Cluster, s: Parallel.State) returns (j: nat)
    requires Parallel.Inv(job, c0, s) && Parallel.HttpJob(job)
    ensures j < PHASES && forall k: Kind :: j < Rank(k) < PHASES ==> s.pcs[Parallel.Kinded(k)].Waiting?
    ensures j > 0 ==> !s.pcs[Parallel.Kinded(KindAt(j))].Waiting?
  {
    forall k: Kind | Rank(k) < PHASES
      ensures Parallel.Kinded(k) in s.pcs
    {
      assert Parallel.Kinded(k) in Parallel.PhasesOf(job);
    }
    j := 3;
    while j > 0 && s.pcs[Parallel.Kinded(KindAt(j))].Waiting?
      invariant j < PHASES && forall k: Kind :: j < Rank(k) < PHASES ==> s.pcs[Parallel.Kinded(k)].Waiting?
    {
      j := j - 1;
    }
  }

  lemma KindInOrder(env: Env, c: Names.Config, reconcileMax: int, c0: Cluster, run: seq<Parallel.State>, i: nat, j: nat,
                    k: Kind)
    requires Parallel.RunIn(JobOf(env, c, reconcileMax), c0, true, run) && i < |run| && j < PHASES
    requires Parallel.Inv(JobOf(env, c, reconcileMax), c0, run[i]) && Parallel.Orderly(run[i])
             && Parallel.HttpJob(JobOf(env, c, reconcileMax))
    requires forall k: Kind :: Rank(k) < PHASES ==> Parallel.Kinded(k) in run[i].pcs
    requires forall k: Kind :: j < Rank(k) < PHASES ==> run[i].pcs[Parallel.Kinded(k)].Waiting?
    requires j > 0 ==> !run[i].pcs[Parallel.Kinded(KindAt(j))].Waiting?
    ensures KindDuring(env, c, true, j, k, c0[k], run[i].cluster[k])
  {
    var job, s := JobOf(env, c, reconcileMax), run[i];
    JobTasks(env, c, reconcileMax);
    if Rank(k) < PHASES {
      assert Parallel.PhaseInv(job, c0, s, Parallel.Kinded(k));
      Parallel.EveryStateIsSafe(job, c0, run, i, k);
      StopsIsTaskStops(env, c, reconcileMax, k, c0[k], s.cluster[k]);
      if Rank(k) < j {
        assert Parallel.Order(Parallel.Kinded(k)) < Parallel.Order(Parallel.Kinded(KindAt(j)));
        assert s.pcs[Parallel.Kinded(k)].Done?;
      }
    }
  }

  /** What a failed reconcile can leave is exactly what the failed runs of its form leave. */
  lemma CanLeaveExactly(env: Env, c: Names.Config, reconcileMax: int, c0: Cluster, now: Cluster)
    ensures CanLeave(env, c, c0, now) <==> exists run :: FailedRun(env, c, reconcileMax, c0, run, now)
  {
    if CanLeave(env, c, c0, now) {
      var run := LeftIsReached(env, c, reconcileMax, c0, now);
    }
    if run :| FailedRun(env, c, reconcileMax, c0, run, now) {
      ReachedIsLeft(env, c, reconcileMax, c0, run, now);
    }
  }

  lemma LeftIsReached(env: Env, c: Names.Config, reconcileMax: int, c0: Cluster, now: Cluster)
    returns (run: seq<Parallel.State>)
    requires CanLeave(env, c, c0, now)
    ensures FailedRun(env, c, reconcileMax, c0, run, now)
  {
    if env.parallel {
      run := ParallelLeft(env, c, reconcileMax, c0, now);
    } else {
      var j: nat :| j < PHASES && During(env, c, true, j, c0, now);
      run := SequentialLeft(env, c, reconcileMax, c0, now, j);
    }
  }

  lemma ReachedIsLeft(env: Env, c: Names.Config, reconcileMax: int, c0: Cluster, run: seq<Parallel.State>, now: Cluster)
    requires FailedRun(env, c, reconcileMax, c0, run, now)
    ensures CanLeave(env, c, c0, now)
  {
    if env.parallel {
      ParallelStates(env, c, reconcileMax, c0, run, |run| - 1);
    } else {
      var j := SequentialStates(env, c, reconcileMax, c0, run, |run| - 1);
    }
  }

  lemma JobListsDemand(env: Env, c: Names.Config, reconcileMax: int)
    requires DemandOf(env, c).Some?
    ensures Parallel.Lists(JobOf(env, c, reconcileMax), DemandOf(env, c).value)
  {
    DemandIsFour(env, c);
    JobTasks(env, c, reconcileMax);
    var job, d := JobOf(env, c, reconcileMax), DemandOf(env, c).value;
    forall k | k in job.tasks ensures exists i :: 0 <= i < |d| && d[i].0 == k { assert d[Rank(k)].0 == k; }
  }

  /** A parallel run that finishes carries out the body exactly as the sequential reconcile does. */
  lemma ParallelCarriesOutTheBody(env: Env, body: string, reconcileMax: int, c0: Cluster, run: seq<Parallel.State>)
    requires SanitizedBody(env, body).Some?
    requires Parallel.IsRun(JobOf(env, SanitizedBody(env, body).value, reconcileMax), c0, run)
             && Parallel.Finished(run[|run| - 1])
    ensures Demand(env, body).Some? && run[|run| - 1].cluster == Reconciled(env, body, c0)
  {
    var c := SanitizedBody(env, body).value;
    var job := JobOf(env, c, reconcileMax);
    JobTasks(env, c, reconcileMax);
    forall k: Kind ensures Feasible(env, c, k) {
      if Rank(k) < PHASES { Parallel.FinishingNeedsGoodInput(job, c0, run, k); }
    }
    DemandIsFour(env, c);
    JobListsDemand(env, c, reconcileMax);
    Parallel.ParallelEqualsSequential(job, c0, run, DemandOf(env, c).value);
  }

  /** Its documents are then the specs, and nothing else is marked. */
  lemma ParallelLeavesSpecs(env: Env, body: string, reconcileMax: int, c0: Cluster, run: seq<Parallel.State>)
    requires SanitizedBody(env, body).Some? && DistinctKeys(env.meta)
    requires Parallel.IsRun(JobOf(env, SanitizedBody(env, body).value, reconcileMax), c0, run)
             && Parallel.Finished(run[|run| - 1])
    ensures SpecsInPlace(env, SanitizedBody(env, body).value, run[|run| - 1].cluster)
    ensures NothingElseMarked(env, SanitizedBody(env, body).value, run[|run| - 1].cluster)
  {
    ParallelCarriesOutTheBody(env, body, reconcileMax, c0, run);
    CarriesIsFixpoint(env, SanitizedBody(env, body).value, c0);
    CarriesSpecs(env, SanitizedBody(env, body).value, run[|run| - 1].cluster);
  }

  /** And a body that can be carried out is, in some run, whatever the limit on concurrency. */
  lemma ParallelCanCarryOut(env: Env, body: string, reconcileMax: int, c0: Cluster) returns (run: seq<Parallel.State>)
    requires Demand(env, body).Some?
    ensures Parallel.IsRun(JobOf(env, SanitizedBody(env, body).value, reconcileMax), c0, run)
    ensures run[|run| - 1].cluster == Reconciled(env, body, c0)
  {
    var c := SanitizedBody(env, body).value;
    var job := JobOf(env, c, reconcileMax);
    JobTasks(env, c, reconcileMax);
    DemandIsFour(env, c);
    var more := Parallel.CanFinish(job, c0, [Parallel.Start(job, c0)]);
    run := [Parallel.Start(job, c0)] + more;
    ParallelCarriesOutTheBody(env, body, reconcileMax, c0, run);
  }

  // ---------------------------------------------------------------------------------------------
  // Carrying a body

  /** An object is marked exactly if its name is wanted, and is then as writing it would leave it. */
  ghost predicate HeldAt(cfg: MetadataConfig, kind: Kind, want: Wanted, n: string, o: KubeObject) {
    (Marked(cfg, o) <==> n in want) && (n in want ==> Written(cfg, kind, Some(o), want[n]) == o)
  }

  /** The marked objects of a kind are exactly the wanted ones, each as writing it would leave it. */
  ghost predicate Holds(cfg: MetadataConfig, kind: Kind, want: Wanted, s: Store) {
    want.Keys <= s.Keys && forall n :: n in s ==> HeldAt(cfg, kind, want, n, s[n])
  }

  /** That is exactly when running the phase again would change nothing. */
  lemma HoldsIsFixpoint(cfg: MetadataConfig, kind: Kind, want: Wanted, s: Store)
    requires DistinctKeys(cfg)
    ensures Holds(cfg, kind, want, s) <==> PhaseResult(cfg, kind, want, s) == s
    ensures Holds(cfg, kind, want, PhaseResult(cfg, kind, want, s))
  {
    PhaseHolds(cfg, kind, want, s);
    if Holds(cfg, kind, want, s) {
      forall n | n in s
        ensures (Marked(cfg, s[n]) <==> n in want) && (n in want ==> s[n] == Written(cfg, kind, Get(s, n), want[n]))
      {
        assert HeldAt(cfg, kind, want, n, s[n]);
      }
      ExactAndFramedIsResult(cfg, kind, want, s, s);
    }
  }

  lemma PhaseHolds(cfg: MetadataConfig, kind: Kind, want: Wanted, s: Store)
    requires DistinctKeys(cfg)
    ensures Holds(cfg, kind, want, PhaseResult(cfg, kind, want, s))
  {
    var r := PhaseResult(cfg, kind, want, s);
    PhaseExact(cfg, kind, want, s);
    forall n | n in r ensures HeldAt(cfg, kind, want, n, r[n]) {
      if n in want { WrittenTwice(cfg, kind, Get(s, n), want[n]); }
    }
  }

  ghost predicate KindHeld(env: Env, c: Names.Config, k: Kind, s: Store) {
    Rank(k) < PHASES ==> Holds(env.meta, k, WantedOf(env, c, k), s)
  }

  /** The cluster is as configuration `c` demands it. */
  ghost predicate Carries(env: Env, c: Names.Config, now: Cluster) {
    forall k: Kind :: KindHeld(env, c, k, now[k])
  }

  /** Reconciling makes it so, and it is so exactly when reconciling would change nothing. */
  lemma CarriesIsFixpoint(env: Env, c: Names.Config, now: Cluster)
    requires DistinctKeys(env.meta) && DemandOf(env, c).Some?
    ensures Carries(env, c, RunPhases(env.meta, DemandOf(env, c).value, now))
    ensures Carries(env, c, now) <==> RunPhases(env.meta, DemandOf(env, c).value, now) == now
  {
    var r := RunPhases(env.meta, DemandOf(env, c).value, now);
    forall k: Kind
      ensures KindHeld(env, c, k, r[k]) && (KindHeld(env, c, k, now[k]) <==> r[k] == now[k])
    {
      RunPhasesByKind(env, c, now, k);
      HoldsIsFixpoint(env.meta, k, WantedOf(env, c, k), now[k]);
    }
    if Carries(env, c, now) {
      forall k: Kind ensures r[k] == now[k] { assert KindHeld(env, c, k, now[k]); }
      assert r.Keys == now.Keys;
    }
  }

  /**
    Read off the configuration: each of its documents is the spec of the object of its name and kind, and
    each router's route likewise.
   */
  ghost predicate SpecsInPlace(env: Env, c: Names.Config, now: Cluster) {
    && (forall n :: n in c.middlewares ==>
          c.middlewares[n].Doc? && n in now[Middleware] && now[Middleware][n].spec == c.middlewares[n].v)
    && (forall n :: n in c.transports ==>
          c.transports[n].Doc? && n in now[ServersTransport] && now[ServersTransport][n].spec == c.transports[n].v)
    && (forall n :: n in c.services ==>
          && env.service(c.services[n]).Doc? && n in now[TraefikService]
          && now[TraefikService][n].spec == env.service(c.services[n]).v)
    && (forall n :: n in c.routers ==>
          && env.route(n, c.routers[n]).Some? && n in now[IngressRoute]
          && var d := env.route(n, c.routers[n]).value;
             && now[IngressRoute][n].spec == d.spec
             && (d.entryPoints != "" ==> Field(now[IngressRoute][n].annotations, ENTRY_POINTS) == Some(d.entryPoints)))
  }

  /** And no other object of these kinds is marked. */
  ghost predicate NothingElseMarked(env: Env, c: Names.Config, now: Cluster) {
    && (forall n :: n in now[Middleware] && Marked(env.meta, now[Middleware][n]) ==> n in c.middlewares)
    && (forall n :: n in now[ServersTransport] && Marked(env.meta, now[ServersTransport][n]) ==> n in c.transports)
    && (forall n :: n in now[TraefikService] && Marked(env.meta, now[TraefikService][n]) ==> n in c.services)
    && (forall n :: n in now[IngressRoute] && Marked(env.meta, now[IngressRoute][n]) ==> n in c.routers)
  }

  /** The objects of a kind are there as they were written. */
  ghost predicate WrittenInPlace(env: Env, c: Names.Config, k: Kind, s: Store) {
    forall n :: n in WantedOf(env, c, k) ==> n in s && Written(env.meta, k, Some(s[n]), WantedOf(env, c, k)[n]) == s[n]
  }

  lemma InPlaceBySpecs(env: Env, c: Names.Config, now: Cluster)
    requires forall k: Kind :: Rank(k) < PHASES ==> Feasible(env, c, k) && WrittenInPlace(env, c, k, now[k])
    ensures SpecsInPlace(env, c, now)
  {
    DocumentsInPlace(env, c, Middleware, c.middlewares, now[Middleware]);
    DocumentsInPlace(env, c, ServersTransport, c.transports, now[ServersTransport]);
    DocumentsInPlace(env, c, TraefikService, Processed(env, c.services), now[TraefikService]);
    forall n | n in c.services
      ensures env.service(c.services[n]).Doc? && n in now[TraefikService]
      ensures now[TraefikService][n].spec == env.service(c.services[n]).v
    {
      assert n in Processed(env, c.services);
    }
    RoutesInPlace(env, c, now[IngressRoute]);
  }

  lemma DocumentsInPlace(env: Env, c: Names.Config, k: Kind, defs: map<string, Raw>, s: Store)
    requires WantedOf(env, c, k) == DocumentWants(defs) && Documents(defs) && WrittenInPlace(env, c, k, s)
    ensures forall n :: n in defs ==> defs[n].Doc? && n in s && s[n].spec == defs[n].v
  {
    forall n | n in defs ensures defs[n].Doc? && n in s && s[n].spec == defs[n].v {
      assert n in DocumentWants(defs);
    }
  }

  lemma RoutesInPlace(env: Env, c: Names.Config, s: Store)
    requires Feasible(env, c, IngressRoute) && WrittenInPlace(env, c, IngressRoute, s)
    ensures forall n :: n in c.routers ==>
              && env.route(n, c.routers[n]).Some? && n in s
              && var d := env.route(n, c.routers[n]).value;
                 && s[n].spec == d.spec
                 && (d.entryPoints != "" ==> Field(s[n].annotations, ENTRY_POINTS) == Some(d.entryPoints))
  {
    forall n | n in c.routers
      ensures env.route(n, c.routers[n]).Some? && n in s
      ensures s[n].spec == env.route(n, c.routers[n]).value.spec
      ensures var d := env.route(n, c.routers[n]).value;
              d.entryPoints != "" ==> Field(s[n].annotations, ENTRY_POINTS) == Some(d.entryPoints)
    {
      assert n in WantedOf(env, c, IngressRoute);
      var d := env.route(n, c.routers[n]).value;
      if d.entryPoints != "" {
        assert Field(Written(env.meta, IngressRoute, Some(s[n]), d).annotations, ENTRY_POINTS) == Some(d.entryPoints);
      }
    }
  }

  /** A cluster that carries a configuration holds exactly its documents. */
  lemma CarriesSpecs(env: Env, c: Names.Config, now: Cluster)
    requires DemandOf(env, c).Some? && Carries(env, c, now)
    ensures SpecsInPlace(env, c, now) && NothingElseMarked(env, c, now)
  {
    DemandIsFour(env, c);
    forall k: Kind | Rank(k) < PHASES ensures Feasible(env, c, k) && WrittenInPlace(env, c, k, now[k]) {
      HeldIsWritten(env, c, k, now[k]);
    }
    InPlaceBySpecs(env, c, now);
    assert KindHeld(env, c, Middleware, now[Middleware]) && KindHeld(env, c, ServersTransport, now[ServersTransport]);
    assert KindHeld(env, c, TraefikService, now[TraefikService]) && KindHeld(env, c, IngressRoute, now[IngressRoute]);
  }

  lemma HeldIsWritten(env: Env, c: Names.Config, k: Kind, s: Store)
    requires Rank(k) < PHASES && KindHeld(env, c, k, s)
    ensures WrittenInPlace(env, c, k, s)
  {
    forall n | n in WantedOf(env, c, k)
      ensures n in s && Written(env.meta, k, Some(s[n]), WantedOf(env, c, k)[n]) == s[n]
    {
      assert n in s && HeldAt(env.meta, k, WantedOf(env, c, k), n, s[n]);
    }
  }

  /** With a grace period what is stale stays, but the documents are in place all the same. */
  lemma PostponedSpecs(env: Env, c: Names.Config, before: Cluster, now: Cluster, schedule: Schedule)
    requires PostponedBefore(env, c, PHASES, before, now, schedule)
    ensures SpecsInPlace(env, c, now)
  {
    forall k: Kind | Rank(k) < PHASES ensures Feasible(env, c, k) && WrittenInPlace(env, c, k, now[k]) {
      assert KindPostponed(env, c, k, before[k], now[k], schedule);
      forall n | n in WantedOf(env, c, k)
        ensures n in now[k] && Written(env.meta, k, Some(now[k][n]), WantedOf(env, c, k)[n]) == now[k][n]
      {
        WrittenTwice(env.meta, k, Get(before[k], n), WantedOf(env, c, k)[n]);
      }
    }
    InPlaceBySpecs(env, c, now);
  }

  /** A configuration can be carried out exactly if its documents are objects or null and its routers have routes. */
  lemma PossibleExactly(env: Env, c: Names.Config)
    ensures DemandOf(env, c).Some? <==>
              && (forall n :: n in c.middlewares ==>
                c.middlewares[n].Doc? && (c.middlewares[n].v.Obj? || c.middlewares[n].v.Null?))
              && (forall n :: n in c.transports ==>
                c.transports[n].Doc? && (c.transports[n].v.Obj? || c.transports[n].v.Null?))
              && (forall n :: n in c.services ==>
                    env.service(c.services[n]).Doc? && (env.service(c.services[n]).v.Obj?
                        || env.service(c.services[n]).v.Null?))
              && (forall n :: n in c.routers ==> env.route(n, c.routers[n]).Some?)
  {
    forall raw: Raw
      ensures DecodeObject(raw).Some? <==> raw.Doc? && (raw.v.Obj? || raw.v.Null?)
    {
      DecodesExactly(raw);
    }
    assert Documents(Processed(env, c.services)) <==> forall n :: n in c.services ==>
      DecodeObject(env.service(c.services[n])).Some?
    by {
      if Documents(Processed(env, c.services)) {
        forall n | n in c.services ensures DecodeObject(env.service(c.services[n])).Some? {
          assert n in Processed(env, c.services);
        }
      }
    }
  }

  // ---------------------------------------------------------------------------------------------
  // Failures that do no harm

  /** Writing `b` over an object written as `a` leaves it as writing `a` would. */
  predicate Agrees(kind: Kind, a: Desired, b: Desired) {
    && a.spec == b.spec
    && (kind.IngressRoute? ==> a.entryPoints == "" || b.entryPoints == "" || a.entryPoints == b.entryPoints)
  }

  lemma AgreesExactly(cfg: MetadataConfig, kind: Kind, o: KubeObject, a: Desired, b: Desired)
    requires DistinctKeys(cfg) && Written(cfg, kind, Some(o), a) == o
    ensures var w := Written(cfg, kind, Some(o), b);
            Written(cfg, kind, Some(w), a) == w <==> Agrees(kind, a, b)
  {
    var w := Written(cfg, kind, Some(o), b);
    var v := Written(cfg, kind, Some(w), a);
    AnnotationKeysDiffer();
    assert v.labels == w.labels by { assert w.labels == o.labels + WantedLabels(cfg); }
    assert v.annotations == w.annotations <==> Field(v.annotations, ENTRY_POINTS) == Field(w.annotations, ENTRY_POINTS)
    by {
      OnlyEntryPointsDiffer(cfg, kind, o.annotations, EntryPointsAnnotation(kind, b), EntryPointsAnnotation(kind, a));
    }
    assert Field(w.annotations, ENTRY_POINTS) ==
           if kind.IngressRoute? && b.entryPoints != "" then Some(b.entryPoints)
             else Field(o.annotations + WantedAnnotations(cfg, kind), ENTRY_POINTS);
    assert Field(v.annotations, ENTRY_POINTS) ==
           if kind.IngressRoute? && a.entryPoints != "" then Some(a.entryPoints)
             else Field(w.annotations, ENTRY_POINTS);
  }

  lemma OnlyEntryPointsDiffer(cfg: MetadataConfig, kind: Kind, o: StringMap, eb: StringMap, ea: StringMap)
    requires ea.Keys <= {ENTRY_POINTS} && eb.Keys <= {ENTRY_POINTS}
    ensures var w := o + WantedAnnotations(cfg, kind) + eb;
            var v := w + WantedAnnotations(cfg, kind) + ea;
            DistinctKeys(cfg) ==> forall k :: k != ENTRY_POINTS ==> Field(v, k) == Field(w, k)
    ensures var w := o + WantedAnnotations(cfg, kind) + eb;
            var v := w + WantedAnnotations(cfg, kind) + ea;
            DistinctKeys(cfg) ==> (v == w <==> Field(v, ENTRY_POINTS) == Field(w, ENTRY_POINTS))
  {
    var w := o + WantedAnnotations(cfg, kind) + eb;
    var v := w + WantedAnnotations(cfg, kind) + ea;
    if DistinctKeys(cfg) && Field(v, ENTRY_POINTS) == Field(w, ENTRY_POINTS) {
      assert v.Keys == w.Keys;
    }
  }

  /**
    A phase that wants `b` cannot harm a store that holds `a`: it writes nothing that `a` does not want
    the same way, and if it gets as far as deleting it wants everything that `a` wants.
   */
  ghost predicate KindHarmless(kind: Kind, a: Wanted, b: Wanted, whole: bool) {
    && (forall n :: n in b ==> n in a && Agrees(kind, a[n], b[n]))
    && (whole ==> a.Keys <= b.Keys)
  }

  lemma HarmlessWrites(cfg: MetadataConfig, kind: Kind, a: Wanted, b: Wanted, s: Store, done: set<string>)
    requires DistinctKeys(cfg) && Holds(cfg, kind, a, s)
    requires forall n :: n in b ==> n in a && Agrees(kind, a[n], b[n])
    ensures Holds(cfg, kind, a, Applied(cfg, kind, b, done, s))
  {
    var now := Applied(cfg, kind, b, done, s);
    assert now.Keys == s.Keys;
    forall n | n in s ensures HeldAt(cfg, kind, a, n, now[n]) {
      assert HeldAt(cfg, kind, a, n, s[n]);
      if n in b && n in done { HarmlessWrite(cfg, kind, n, a, s[n], b[n]); }
    }
  }

  lemma HarmlessWrite(cfg: MetadataConfig, kind: Kind, n: string, a: Wanted, o: KubeObject, d: Desired)
    requires DistinctKeys(cfg) && HeldAt(cfg, kind, a, n, o) && n in a && Agrees(kind, a[n], d)
    ensures HeldAt(cfg, kind, a, n, Written(cfg, kind, Some(o), d))
  {
    WrittenIsMarked(cfg, kind, Some(o), d);
    AgreesExactly(cfg, kind, o, a[n], d);
  }

  lemma HarmlessKeeps(cfg: MetadataConfig, kind: Kind, a: Wanted, b: Wanted, whole: bool, s: Store, now: Store)
    requires DistinctKeys(cfg) && Holds(cfg, kind, a, s) && KindHarmless(kind, a, b, whole)
    requires Reached(cfg, kind, b, whole, s, now)
    ensures Holds(cfg, kind, a, now)
  {
    if done :| now == Applied(cfg, kind, b, done, s) {
      HarmlessWrites(cfg, kind, a, b, s, done);
    } else {
      var gone :| gone <= Stale(cfg, b.Keys, Applied(cfg, kind, b, b.Keys, s))
        && now == Applied(cfg, kind, b, b.Keys, s) - gone;
      HarmlessDeletes(cfg, kind, a, b, s, gone);
    }
  }

  lemma HarmlessDeletes(cfg: MetadataConfig, kind: Kind, a: Wanted, b: Wanted, s: Store, gone: set<string>)
    requires DistinctKeys(cfg) && Holds(cfg, kind, a, s) && KindHarmless(kind, a, b, true)
    requires gone <= Stale(cfg, b.Keys, Applied(cfg, kind, b, b.Keys, s))
    ensures Holds(cfg, kind, a, Applied(cfg, kind, b, b.Keys, s) - gone)
  {
    NothingStale(cfg, kind, a, b, s);
    var all := Applied(cfg, kind, b, b.Keys, s);
    assert gone == {} && all - {} == all;
    HarmlessWrites(cfg, kind, a, b, s, b.Keys);
  }

  lemma NothingStale(cfg: MetadataConfig, kind: Kind, a: Wanted, b: Wanted, s: Store)
    requires Holds(cfg, kind, a, s) && a.Keys <= b.Keys
    ensures Stale(cfg, b.Keys, Applied(cfg, kind, b, b.Keys, s)) == {}
  {
    StaleUnaffected(cfg, kind, b, b.Keys, s);
    forall n | n in s ensures !IsStale(cfg, b.Keys, n, s[n]) { assert HeldAt(cfg, kind, a, n, s[n]); }
  }

  /** And otherwise it can be left so that it no longer holds `a`. */
  lemma HarmfulCanMiss(cfg: MetadataConfig, kind: Kind, a: Wanted, b: Wanted, whole: bool, s: Store)
    returns (now: Store)
    requires DistinctKeys(cfg) && Holds(cfg, kind, a, s) && !KindHarmless(kind, a, b, whole)
    ensures Reached(cfg, kind, b, whole, s, now) && !Holds(cfg, kind, a, now)
  {
    if n :| n in b && !(n in a && Agrees(kind, a[n], b[n])) {
      now := Applied(cfg, kind, b, {n}, s);
      OneWriteMisses(cfg, kind, a, b, s, n);
    } else {
      now := PhaseResult(cfg, kind, b, s);
      ResultIsReached(cfg, kind, b, s);
      var n :| n in a && n !in b;
      StaleUnaffected(cfg, kind, b, b.Keys, s);
      assert n in Stale(cfg, b.Keys, s);
    }
  }

  lemma OneWriteMisses(cfg: MetadataConfig, kind: Kind, a: Wanted, b: Wanted, s: Store, n: string)
    requires DistinctKeys(cfg) && Holds(cfg, kind, a, s)
    requires n in b && !(n in a && Agrees(kind, a[n], b[n]))
    ensures !Holds(cfg, kind, a, Applied(cfg, kind, b, {n}, s))
  {
    var now := Applied(cfg, kind, b, {n}, s);
    assert n in now && now[n] == Written(cfg, kind, Get(s, n), b[n]);
    WrittenIsMarked(cfg, kind, Get(s, n), b[n]);
    if n in a { AgreesExactly(cfg, kind, s[n], a[n], b[n]); }
  }

  /**
    The phase of kind `k` is begun when `b` is reconciled: always in parallel, else if the phases before
    it can succeed.
   */
  ghost predicate Begun(env: Env, b: Names.Config, k: Kind) {
    Rank(k) < PHASES && (env.parallel || forall i: Kind :: Rank(i) < Rank(k) ==> Feasible(env, b, i))
  }

  ghost predicate PhaseHarmless(env: Env, a: Names.Config, b: Names.Config, k: Kind) {
    (k.IngressRoute? && !Feasible(env, b, k)) || KindHarmless(k, WantedOf(env, a, k), WantedOf(env, b, k),
      Feasible(env, b, k))
  }

  /** A reconcile of `b` that fails, wherever it does, leaves a cluster that carries `a`. */
  ghost predicate Harmless(env: Env, a: Names.Config, b: Names.Config) {
    forall k: Kind :: Begun(env, b, k) ==> PhaseHarmless(env, a, b, k)
  }

  lemma StopKeepsHeld(env: Env, a: Names.Config, b: Names.Config, k: Kind, s: Store, now: Store)
    requires DistinctKeys(env.meta) && Rank(k) < PHASES && KindHeld(env, a, k, s)
    requires PhaseHarmless(env, a, b, k) && Stops(env, b, k, s, now)
    ensures KindHeld(env, a, k, now)
  {
    if !(k.IngressRoute? && !Feasible(env, b, k)) {
      HarmlessKeeps(env.meta, k, WantedOf(env, a, k), WantedOf(env, b, k), Feasible(env, b, k), s, now);
    }
  }

  lemma HarmlessLeavesCarried(env: Env, a: Names.Config, b: Names.Config, c: Cluster, now: Cluster)
    requires DistinctKeys(env.meta) && Carries(env, a, c) && Harmless(env, a, b) && CanLeave(env, b, c, now)
    ensures Carries(env, a, now)
  {
    if env.parallel {
      forall k: Kind ensures KindHeld(env, a, k, now[k]) {
        assert KindHeld(env, a, k, c[k]) && KindLeft(env, b, k, c[k], now[k]);
        if Rank(k) < PHASES { assert Begun(env, b, k); StopKeepsHeld(env, a, b, k, c[k], now[k]); }
      }
    } else {
      var j: nat :| j < PHASES && During(env, b, true, j, c, now);
      forall k: Kind ensures KindHeld(env, a, k, now[k]) {
        assert KindHeld(env, a, k, c[k]) && KindDuring(env, b, true, j, k, c[k], now[k]);
        if Rank(k) <= j {
          forall i: Kind | Rank(i) < Rank(k)
            ensures Feasible(env, b, i)
          {
            assert KindDuring(env, b, true, j, i, c[i], now[i]);
          }
          assert Begun(env, b, k);
          StopKeepsHeld(env, a, b, k, c[k], now[k]);
        }
      }
    }
  }

  /** The cluster in which the phases before that of `k` are complete and the store of `k` is `s`. */
  ghost function LeftAt(env: Env, b: Names.Config, c: Cluster, k: Kind, s: Store): Cluster {
    map i: Kind | true :: if i == k then s else if !env.parallel && Rank(i) < Rank(k) then Completed(env, b, i, c[i])
      else c[i]
  }

  lemma LeftAtIsLeft(env: Env, b: Names.Config, c: Cluster, k: Kind, s: Store)
    requires Begun(env, b, k) && Stops(env, b, k, c[k], s)
    ensures CanLeave(env, b, c, LeftAt(env, b, c, k, s))
  {
    var now := LeftAt(env, b, c, k, s);
    if env.parallel {
      forall i: Kind ensures KindLeft(env, b, i, c[i], now[i]) { UntouchedStops(env, b, i, c[i]); }
    } else {
      forall i: Kind ensures KindDuring(env, b, true, Rank(k), i, c[i], now[i]) {
        if Rank(i) < Rank(k) { ResultIsReached(env.meta, i, WantedOf(env, b, i), c[i]); }
      }
      assert During(env, b, true, Rank(k), c, now);
    }
  }

  lemma HarmfulCanLeaveMissed(env: Env, a: Names.Config, b: Names.Config, c: Cluster) returns (now: Cluster)
    requires DistinctKeys(env.meta) && Carries(env, a, c) && !Harmless(env, a, b)
    ensures CanLeave(env, b, c, now) && !Carries(env, a, now)
  {
    var k :| Begun(env, b, k) && !PhaseHarmless(env, a, b, k);
    assert KindHeld(env, a, k, c[k]);
    var s := HarmfulCanMiss(env.meta, k, WantedOf(env, a, k), WantedOf(env, b, k), Feasible(env, b, k), c[k]);
    now := LeftAt(env, b, c, k, s);
    LeftAtIsLeft(env, b, c, k, s);
    assert !KindHeld(env, a, k, now[k]);
  }

  /** There is then a run of the reconcile, in either form, that fails and leaves such a cluster. */
  lemma HarmfulRun(env: Env, a: Names.Config, b: Names.Config, reconcileMax: int, c: Cluster)
    returns (run: seq<Parallel.State>, now: Cluster)
    requires DistinctKeys(env.meta) && Carries(env, a, c) && !Harmless(env, a, b)
    ensures FailedRun(env, b, reconcileMax, c, run, now) && !Carries(env, a, now)
  {
    now := HarmfulCanLeaveMissed(env, a, b, c);
    run := LeftIsReached(env, b, reconcileMax, c, now);
  }

  /**
    The exact condition: every cluster a failed reconcile of `b` can leave carries `a` if and only if
    `b` is harmless to `a`.
   */
  lemma HarmlessExactly(env: Env, a: Names.Config, b: Names.Config, c: Cluster)
    requires DistinctKeys(env.meta) && Carries(env, a, c)
    ensures Harmless(env, a, b) <==> forall now :: CanLeave(env, b, c, now) ==> Carries(env, a, now)
  {
    if Harmless(env, a, b) {
      forall now | CanLeave(env, b, c, now) ensures Carries(env, a, now) { HarmlessLeavesCarried(env, a, b, c, now); }
    } else {
      var now := HarmfulCanLeaveMissed(env, a, b, c);
    }
  }

  // ---------------------------------------------------------------------------------------------
  // Runs of the controller

  /** A run: the polls, and the cluster before the first and after each of them. */
  datatype World = World(polls: seq<Loop.Event>, clusters: seq<Cluster>)

  /**
    Only applying moves the cluster: a success to where the body demands, a failure to anything a
    failed reconcile can leave, or nowhere if the body does not even decode or cannot be sanitised.
   */
  ghost predicate Moves(env: Env, a: Loop.Action, c: Cluster, c': Cluster) {
    match a
    case Applied(b) => Demand(env, b).Some? && c' == Reconciled(env, b, c)
    case ApplyFailed(b) =>
      (match SanitizedBody(env, b)
       case None => c' == c
       case Some(cfg) => CanLeave(env, cfg, c, c'))
    case _ => c' == c
  }

  ghost predicate IsRun(env: Env, w: World, equiv: Loop.Equivalence) {
    && |w.clusters| == |w.polls| + 1
    && Loop.IsRun(env.hash, w.polls, equiv)
    && forall i :: 0 <= i < |w.polls| ==> MovesAt(env, w, i)
  }

  ghost predicate MovesAt(env: Env, w: World, i: nat)
    requires i < |w.polls| && |w.clusters| == |w.polls| + 1
  {
    Moves(env, Loop.ActionAt(env.hash, w.polls, i), w.clusters[i], w.clusters[i + 1])
  }

  ghost function Last(env: Env, polls: seq<Loop.Event>, n: nat): Option<string>
    requires n <= |polls|
  {
    Loop.LastApplied(env.hash, polls[..n])
  }

  ghost predicate BodyHarmless(env: Env, last: Option<string>, b: string) {
    SanitizedBody(env, b).Some? ==>
      && last.Some? && SanitizedBody(env, last.value).Some?
      && Harmless(env, SanitizedBody(env, last.value).value, SanitizedBody(env, b).value)
  }

  /** There was a success before poll `n`, and every failure since was harmless to it. */
  ghost predicate Undisturbed(env: Env, polls: seq<Loop.Event>, n: nat)
    requires n <= |polls|
  {
    n > 0 &&
    (match Loop.ActionAt(env.hash, polls, n - 1)
     case Applied(_) => true
     case ApplyFailed(b) => Undisturbed(env, polls, n - 1) && BodyHarmless(env, Last(env, polls, n - 1), b)
     case _ => Undisturbed(env, polls, n - 1))
  }

  lemma {:induction false} LastAppliedOf(env: Env, polls: seq<Loop.Event>, n: nat)
    requires 0 < n <= |polls|
    ensures Last(env, polls, n) ==
            (var a := Loop.ActionAt(env.hash, polls, n - 1);
             if a.Applied? then Some(a.body) else Last(env, polls, n - 1))
  {
    assert polls[..n][..n - 1] == polls[..n - 1];
  }

  /** The cluster carries the given body. */
  ghost predicate CarriesBody(env: Env, body: Option<string>, now: Cluster) {
    body.Some? && Demand(env, body.value).Some? && Carries(env, SanitizedBody(env, body.value).value, now)
  }

  lemma {:induction false} UndisturbedCarries(env: Env, w: World, equiv: Loop.Equivalence, n: nat)
    requires DistinctKeys(env.meta) && IsRun(env, w, equiv) && n <= |w.polls| && Undisturbed(env, w.polls, n)
    ensures CarriesBody(env, Last(env, w.polls, n), w.clusters[n])
  {
    LastAppliedOf(env, w.polls, n);
    var a := Loop.ActionAt(env.hash, w.polls, n - 1);
    assert MovesAt(env, w, n - 1);
    if a.Applied? {
      CarriesIsFixpoint(env, SanitizedBody(env, a.body).value, w.clusters[n - 1]);
    } else {
      UndisturbedCarries(env, w, equiv, n - 1);
      if a.ApplyFailed? && SanitizedBody(env, a.body).Some? {
        var last := SanitizedBody(env, Last(env, w.polls, n - 1).value).value;
        HarmlessLeavesCarried(env, last, SanitizedBody(env, a.body).value, w.clusters[n - 1], w.clusters[n]);
      }
    }
  }

  // ---------------------------------------------------------------------------------------------
  // The theorems

  /**
    In every run without outside edits, a poll judged unchanged, with only harmless failures since the
    last success, finds the cluster exactly as the last applied body demands it: the marked objects of
    each HTTP kind are the demanded ones, and applying that body once more would change nothing.
   */
  lemma SkippedPollFindsDemandedCluster(env: Env, w: World, equiv: Loop.Equivalence, n: nat)
    requires DistinctKeys(env.meta) && Loop.CollisionFree(env.hash)
    requires IsRun(env, w, equiv) && n < |w.polls|
    requires Loop.ActionAt(env.hash, w.polls, n).Skipped? && Undisturbed(env, w.polls, n)
    ensures var last := Last(env, w.polls, n);
            && CarriesBody(env, last, w.clusters[n]) && Reconciled(env, last.value, w.clusters[n]) == w.clusters[n]
            && SpecsInPlace(env, SanitizedBody(env, last.value).value, w.clusters[n])
            && NothingElseMarked(env, SanitizedBody(env, last.value).value, w.clusters[n])
            && (Loop.Served(w.polls[n].answer).Some? ==> Loop.Served(w.polls[n].answer) == last)
            && (Loop.Served(w.polls[n].answer).None? ==> equiv(last.value, w.polls[n].rep.body))
  {
    Loop.SkippedIsLastApplied(env.hash, w.polls, equiv, n);
    UndisturbedCarries(env, w, equiv, n);
    CarriesIsFixpoint(env, SanitizedBody(env, Last(env, w.polls, n).value).value, w.clusters[n]);
    CarriesSpecs(env, SanitizedBody(env, Last(env, w.polls, n).value).value, w.clusters[n]);
  }

  /** A run over the first polls of `w` goes on with the next of them. */
  lemma Extend(env: Env, w: World, equiv: Loop.Equivalence, v: World, n: nat, left: Cluster) returns (longer: World)
    requires IsRun(env, w, equiv) && n < |w.polls| && IsRun(env, v, equiv) && v.polls == w.polls[..n]
    requires Moves(env, Loop.ActionAt(env.hash, w.polls, n), v.clusters[n], left)
    ensures IsRun(env, longer, equiv) && longer.polls == w.polls[..n + 1]
    ensures longer.clusters[0] == v.clusters[0] && longer.clusters[n + 1] == left
  {
    longer := World(w.polls[..n + 1], v.clusters + [left]);
    Loop.RunPrefix(env.hash, w.polls, equiv, n + 1);
    forall i | 0 <= i <= n ensures MovesAt(env, longer, i) {
      ExtendedMoves(env, w.polls, v, n, left, i);
    }
  }

  lemma ExtendedMoves(env: Env, polls: seq<Loop.Event>, v: World, n: nat, left: Cluster, i: nat)
    requires n < |polls| && v.polls == polls[..n] && |v.clusters| == n + 1 && i <= n
    requires i < n ==> MovesAt(env, v, i)
    requires Moves(env, Loop.ActionAt(env.hash, polls, n), v.clusters[n], left)
    ensures MovesAt(env, World(polls[..n + 1], v.clusters + [left]), i)
  {
    SameAction(env.hash, polls, n + 1, i);
    var clusters := v.clusters + [left];
    if i < n {
      SameAction(env.hash, polls, n, i);
      assert clusters[i] == v.clusters[i] && clusters[i + 1] == v.clusters[i + 1];
    } else {
      assert clusters[i] == v.clusters[n] && clusters[i + 1] == left;
    }
  }

  lemma SameAction(hash: Loop.Digest, polls: seq<Loop.Event>, n: nat, i: nat)
    requires i < n <= |polls|
    ensures Loop.ActionAt(hash, polls[..n], i) == Loop.ActionAt(hash, polls, i)
  {
    assert polls[..n][..i] == polls[..i];
  }

  lemma Prefix(env: Env, w: World, equiv: Loop.Equivalence, n: nat) returns (u: World)
    requires IsRun(env, w, equiv) && n <= |w.polls|
    ensures IsRun(env, u, equiv) && u.polls == w.polls[..n]
    ensures u.clusters[0] == w.clusters[0] && u.clusters[n] == w.clusters[n]
  {
    var polls, clusters := w.polls[..n], w.clusters[..n + 1];
    u := World(polls, clusters);
    Loop.RunPrefix(env.hash, w.polls, equiv, n);
    forall i | 0 <= i < |polls| ensures MovesAt(env, u, i) {
      SameAction(env.hash, w.polls, n, i);
      assert MovesAt(env, w, i);
    }
  }

  lemma FailureCanLeaveAll(env: Env, a: Loop.Action, c: Cluster)
    requires !a.Applied?
    ensures Moves(env, a, c, c)
  {
    if a.ApplyFailed? && SanitizedBody(env, a.body).Some? {
      var b := SanitizedBody(env, a.body).value;
      UntouchedStops(env, b, Middleware, c[Middleware]);
      LeftAtIsLeft(env, b, c, Middleware, c[Middleware]);
      assert LeftAt(env, b, c, Middleware, c[Middleware]) == c;
    }
  }

  /**
    The condition cannot be spared: whenever some failure since the last success was not harmless,
    there is a run from the same cluster over the same polls that no longer carries the last body.
   */
  lemma {:induction false} DisturbedCanMiss(env: Env, w: World, equiv: Loop.Equivalence, n: nat) returns (v: World)
    requires DistinctKeys(env.meta) && IsRun(env, w, equiv) && n <= |w.polls|
    requires Last(env, w.polls, n).Some? && !Undisturbed(env, w.polls, n)
    ensures IsRun(env, v, equiv) && v.polls == w.polls[..n] && v.clusters[0] == w.clusters[0]
    ensures !CarriesBody(env, Last(env, w.polls, n), v.clusters[n])
  {
    LastAppliedOf(env, w.polls, n);
    if Undisturbed(env, w.polls, n - 1) {
      v := BecomesMissed(env, w, equiv, n - 1);
    } else {
      var u := DisturbedCanMiss(env, w, equiv, n - 1);
      v := StaysMissed(env, w, equiv, n - 1, u);
    }
  }

  lemma StaysMissed(env: Env, w: World, equiv: Loop.Equivalence, n: nat, u: World) returns (v: World)
    requires IsRun(env, w, equiv) && n < |w.polls| && !Loop.ActionAt(env.hash, w.polls, n).Applied?
    requires IsRun(env, u, equiv) && u.polls == w.polls[..n] && u.clusters[0] == w.clusters[0]
    ensures IsRun(env, v, equiv) && v.polls == w.polls[..n + 1] && v.clusters[0] == w.clusters[0]
            && v.clusters[n + 1] == u.clusters[n]
  {
    FailureCanLeaveAll(env, Loop.ActionAt(env.hash, w.polls, n), u.clusters[n]);
    v := Extend(env, w, equiv, u, n, u.clusters[n]);
  }

  lemma BecomesMissed(env: Env, w: World, equiv: Loop.Equivalence, n: nat) returns (v: World)
    requires DistinctKeys(env.meta) && IsRun(env, w, equiv) && n < |w.polls|
    requires Undisturbed(env, w.polls, n) && !Undisturbed(env, w.polls, n + 1)
    ensures IsRun(env, v, equiv) && v.polls == w.polls[..n + 1] && v.clusters[0] == w.clusters[0]
    ensures !CarriesBody(env, Last(env, w.polls, n), v.clusters[n + 1])
  {
    UndisturbedCarries(env, w, equiv, n);
    var u := Prefix(env, w, equiv, n);
    var left := FailureCanMiss(env, Last(env, w.polls, n).value, Loop.ActionAt(env.hash, w.polls, n).body,
      u.clusters[n]);
    v := Extend(env, w, equiv, u, n, left);
  }

  /** A failure that is not harmless can leave a cluster that does not carry the last body. */
  lemma FailureCanMiss(env: Env, last: string, b: string, c: Cluster) returns (left: Cluster)
    requires DistinctKeys(env.meta) && CarriesBody(env, Some(last), c) && !BodyHarmless(env, Some(last), b)
    ensures Moves(env, Loop.ApplyFailed(b), c, left) && !CarriesBody(env, Some(last), left)
  {
    left := HarmfulCanLeaveMissed(env, SanitizedBody(env, last).value, SanitizedBody(env, b).value, c);
  }

  /** Together: a skip is right in every run over the same polls if and only if nothing disturbed the last success. */
  lemma SkipIsRightExactly(env: Env, w: World, equiv: Loop.Equivalence, n: nat)
    requires DistinctKeys(env.meta) && Loop.CollisionFree(env.hash)
    requires IsRun(env, w, equiv) && n < |w.polls| && Loop.ActionAt(env.hash, w.polls, n).Skipped?
    ensures Undisturbed(env, w.polls, n) <==>
              forall v :: IsRun(env, v, equiv) && v.polls == w.polls[..n] && v.clusters[0] == w.clusters[0] ==>
                CarriesBody(env, Last(env, w.polls, n), v.clusters[n])
  {
    Loop.SkippedIsLastApplied(env.hash, w.polls, equiv, n);
    if Undisturbed(env, w.polls, n) {
      forall v | IsRun(env, v, equiv) && v.polls == w.polls[..n] && v.clusters[0] == w.clusters[0]
        ensures CarriesBody(env, Last(env, w.polls, n), v.clusters[n])
      {
        UndisturbedPrefix(env, w.polls, n, n);
        UndisturbedCarries(env, v, equiv, n);
        assert v.polls[..n] == w.polls[..n];
      }
    } else {
      var v := DisturbedCanMiss(env, w, equiv, n);
    }
  }

  lemma {:induction false} UndisturbedPrefix(env: Env, polls: seq<Loop.Event>, m: nat, n: nat)
    requires n <= m <= |polls|
    ensures Undisturbed(env, polls[..m], n) <==> Undisturbed(env, polls, n)
  {
    if n > 0 {
      UndisturbedPrefix(env, polls, m, n - 1);
      assert polls[..m][..n - 1] == polls[..n - 1];
    }
  }

  // ---------------------------------------------------------------------------------------------
  // The smallest such run

  lemma FirstApply(env: Env, a: string, c0: Cluster) returns (c1: Cluster)
    requires DistinctKeys(env.meta) && Demand(env, a).Some?
    ensures Moves(env, Loop.Applied(a), c0, c1) && CarriesBody(env, Some(a), c1)
  {
    c1 := Reconciled(env, a, c0);
    CarriesIsFixpoint(env, SanitizedBody(env, a).value, c0);
  }

  /** What a failed apply of `b` can leave: a cluster without `a` if that is possible. */
  lemma SomeFailure(env: Env, a: string, b: string, c: Cluster) returns (left: Cluster)
    requires DistinctKeys(env.meta) && CarriesBody(env, Some(a), c)
    ensures Moves(env, Loop.ApplyFailed(b), c, left) && (CarriesBody(env, Some(a), left) <==>
              BodyHarmless(env, Some(a), b))
  {
    if BodyHarmless(env, Some(a), b) {
      left := c;
      FailureCanLeaveAll(env, Loop.ApplyFailed(b), c);
    } else {
      left := FailureCanMiss(env, a, b, c);
    }
  }

  /**
    `a` was applied, applying `b` failed and left whatever such a failure can leave, and the server goes
    back to `a`: the poll is skipped and the cluster stays.
   */
  lemma FailureThenOldBodyIsSkipped(env: Env, a: string, b: string, c0: Cluster, c1: Cluster, left: Cluster)
    returns (w: World)
    requires Loop.CollisionFree(env.hash) && a != b
    requires Moves(env, Loop.Applied(a), c0, c1) && Moves(env, Loop.ApplyFailed(b), c1, left)
    ensures w == World([Poll(a, true), Poll(b, false), Poll(a, true)], [c0, c1, left, left])
    ensures IsRun(env, w, SAME) && Loop.ActionAt(env.hash, w.polls, 2).Skipped?
  {
    var es := [Poll(a, true), Poll(b, false), Poll(a, true)];
    ThreePolls(env.hash, a, b);
    NoTags(env.hash, es);
    w := World(es, [c0, c1, left, left]);
    assert MovesAt(env, w, 0) && MovesAt(env, w, 1) && MovesAt(env, w, 2);
  }

  /** There are harmful bodies: one that drops a servers transport the other defines. */
  lemma DroppedTransportIsHarmful(env: Env, a: Names.Config, b: Names.Config, n: string)
    requires DemandOf(env, b).Some? && Documents(a.transports)
    requires n in a.transports && n !in b.transports
    ensures !Harmless(env, a, b)
  {
    DemandIsFour(env, b);
    assert Begun(env, b, ServersTransport);
    assert n in WantedOf(env, a, ServersTransport) && n !in WantedOf(env, b, ServersTransport);
    assert !PhaseHarmless(env, a, b, ServersTransport);
  }

  const SAME: Loop.Equivalence := (x, y) => x == y

  /** Answers without entity tags are honest whatever they carry. */
  lemma NoTags(hash: Loop.Digest, es: seq<Loop.Event>)
    requires forall i :: 0 <= i < |es| ==> exists body, ok :: es[i] == Poll(body, ok)
    ensures Loop.IsRun(hash, es, SAME)
  {
  }

  /** A plain answer without entity tag. */
  function Poll(body: string, ok: bool): Loop.Event {
    Loop.Event(Loop.Representation("", body), Loop.Response(200, "", body), ok)
  }

  lemma ThreePolls(hash: Loop.Digest, a: string, b: string)
    requires Loop.CollisionFree(hash) && a != b
    ensures var es := [Poll(a, true), Poll(b, false), Poll(a, true)];
            && Loop.ActionAt(hash, es, 0) == Loop.Applied(a)
            && Loop.ActionAt(hash, es, 1) == Loop.ApplyFailed(b)
            && Loop.ActionAt(hash, es, 2) == Loop.Skipped
  {
    var es := [Poll(a, true), Poll(b, false), Poll(a, true)];
    var m1 := Loop.Memory("", false, hash(a), 0);
    assert es[..0] == [] && es[..1] == [Poll(a, true)] && es[..2] == [Poll(a, true), Poll(b, false)];
    assert es[..1][..0] == [] && es[..2][..1] == es[..1];
    assert Loop.MemoryAt(hash, es[..1]) == m1;
    assert hash(a) != hash(b);
    assert Loop.MemoryAt(hash, es[..2]) == m1.(errors := 1);
  }

  const WITH_TRANSPORT := Names.Config(map[], map[], map[], map["t" := Doc(Null)])
  const EMPTY := Names.Config(map[], map[], map[], map[])

  function ExampleEnv(meta: MetadataConfig, parallel: bool): Env {
    Env(meta, parallel, s => "#" + s, n => n, s => Some(if s == "A" then WITH_TRANSPORT else EMPTY), (n, r) => None,
      r => r)
  }

  lemma ExampleIsHarmful(meta: MetadataConfig, parallel: bool)
    ensures var env := ExampleEnv(meta, parallel);
            && Loop.CollisionFree(env.hash) && Demand(env, "A").Some? && SanitizedBody(env, "B").Some?
            && !BodyHarmless(env, Some("A"), "B")
  {
    var env := ExampleEnv(meta, parallel);
    forall x: string, y: string | env.hash(x) == env.hash(y)
      ensures x == y
    {
      assert x == ("#" + x)[1..] && y == ("#" + y)[1..];
    }
    KeptTransport(env.san);
    DroppedTransportIsHarmful(env, SanitizedBody(env, "A").value, SanitizedBody(env, "B").value, "t");
  }

  lemma HarmfulFailure(env: Env, a: string, b: string, c0: Cluster) returns (c1: Cluster, left: Cluster)
    requires DistinctKeys(env.meta) && Demand(env, a).Some? && !BodyHarmless(env, Some(a), b)
    ensures Moves(env, Loop.Applied(a), c0, c1) && Moves(env, Loop.ApplyFailed(b), c1, left)
            && !CarriesBody(env, Some(a), left)
  {
    c1 := FirstApply(env, a, c0);
    left := SomeFailure(env, a, b, c1);
  }

  /** The skip is wrong whenever a harmful body fails between two answers with the same body. */
  lemma HarmfulBodyMisleads(env: Env, a: string, b: string, reconcileMax: int, c0: Cluster)
    returns (w: World, run: seq<Parallel.State>)
    requires Loop.CollisionFree(env.hash) && a != b && DistinctKeys(env.meta)
    requires Demand(env, a).Some? && SanitizedBody(env, b).Some? && !BodyHarmless(env, Some(a), b)
    ensures IsRun(env, w, SAME) && w.clusters[0] == c0 && w.polls == [Poll(a, true), Poll(b, false), Poll(a, true)]
    ensures Loop.ActionAt(env.hash, w.polls, 2).Skipped? && !CarriesBody(env, Some(a), w.clusters[2])
    ensures FailedRun(env, SanitizedBody(env, b).value, reconcileMax, w.clusters[1], run, w.clusters[2])
  {
    var c1, left := HarmfulFailure(env, a, b, c0);
    w := FailureThenOldBodyIsSkipped(env, a, b, c0, c1, left);
    run := FailureIsReached(env, b, reconcileMax, c1, left);
  }

  /**
    An input on which the skip is wrong, in either form of the reconcile: body "A" defines a transport,
    body "B" nothing. `run` is the reconcile of "B" that fails and leaves the cluster of the skipped poll.
   */
  lemma SkipCanBeWrong(meta: MetadataConfig, parallel: bool, reconcileMax: int, c0: Cluster)
    returns (env: Env, w: World, run: seq<Parallel.State>)
    requires DistinctKeys(meta)
    ensures env.meta == meta && env.parallel == parallel && IsRun(env, w, SAME) && w.clusters[0] == c0
    ensures w.polls == [Poll("A", true), Poll("B", false), Poll("A", true)]
            && Loop.ActionAt(env.hash, w.polls, 2).Skipped?
    ensures !CarriesBody(env, Some("A"), w.clusters[2])
    ensures SanitizedBody(env, "B").Some? && FailedRun(env, SanitizedBody(env, "B").value, reconcileMax, w.clusters[1],
            run, w.clusters[2])
  {
    env := ExampleEnv(meta, parallel);
    ExampleIsHarmful(meta, parallel);
    assert "A" != "B";
    w, run := HarmfulBodyMisleads(env, "A", "B", reconcileMax, c0);
  }

  lemma FailureIsReached(env: Env, b: string, reconcileMax: int, c: Cluster, left: Cluster)
    returns (run: seq<Parallel.State>)
    requires SanitizedBody(env, b).Some? && Moves(env, Loop.ApplyFailed(b), c, left)
    ensures FailedRun(env, SanitizedBody(env, b).value, reconcileMax, c, run, left)
  {
    run := LeftIsReached(env, SanitizedBody(env, b).value, reconcileMax, c, left);
  }

  lemma KeptTransport(san: Namer)
    requires forall n :: san(n) == n
    ensures Names.Sanitized(san, WITH_TRANSPORT) == Some(WITH_TRANSPORT) && Names.Sanitized(san, EMPTY) == Some(EMPTY)
  {
    var defs := map["t" := Doc(Null)];
    assert Names.Wins(san, defs, "t", "t");
    Names.WinnerInIs(san, defs, "t", "t");
    assert Names.NamesOf(san, defs) == {"t"};
    assert Names.RenameSection(san, Names.Transports, defs) == defs;
  }
}
