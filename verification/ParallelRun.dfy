/**
  The parallel reconcile: one goroutine per phase, a semaphore of `ReconcileMax` slots, and API calls
  of different phases interleaved in any order (internal/controller/apply.go).

  A step is one API call of one phase. A phase may fail at any step; a failed write whose effect was
  kept is a write step followed by a failure. The TCP and UDP phases take a slot and do nothing,
  because the sanitised configuration has neither section.
 */
module ParallelRun {
  import opened Results
  import opened Objects
  import opened Phases

  datatype Phase = Kinded(kind: Kind) | Tcp | Udp

  /** `Broken`: some router could not be transformed. `bad`: names whose document does not decode. */
  datatype Task = Broken | Task(want: Wanted, bad: set<string>)

  datatype Job = Job(cfg: MetadataConfig, reconcileMax: int, tasks: map<Kind, Task>)

  datatype Pc =
    | Waiting
    | Writing(todo: set<string>)
    | Patching(name: string, seen: Option<KubeObject>, todo: set<string>)
    | Deleting(todo: set<string>)
    | Done
    | Failed

  datatype State = State(cluster: Cluster, pcs: map<Phase, Pc>)

  predicate Running(pc: Pc) {
    !pc.Waiting? && !pc.Done? && !pc.Failed?
  }

  function Slots(job: Job): nat {
    if job.reconcileMax < 1 then 1 else job.reconcileMax
  }

  function RunningPhases(s: State): set<Phase> {
    set p | p in s.pcs && Running(s.pcs[p])
  }

  function PhasesOf(job: Job): set<Phase> {
    (set k | k in job.tasks :: Kinded(k)) + {Tcp, Udp}
  }

  function Start(job: Job, c: Cluster): State {
    State(c, map p | p in PhasesOf(job) :: Waiting)
  }

  function Begin(job: Job, p: Phase): Pc {
    if p.Kinded? && p.kind in job.tasks then
      match job.tasks[p.kind]
      case Broken => Failed
      case Task(want, bad) => Writing(want.Keys + bad)
    else Deleting({})
  }

  /** One API call of a phase on the store of its own kind. */
  ghost predicate CallStep(cfg: MetadataConfig, kind: Kind, t: Task, pc: Pc, pc': Pc, s: Store, s': Store)
    requires t.Task?
  {
    match pc
    case Writing(todo) =>
      && s' == s
      && ((exists n :: n in todo && n in t.want && pc' == Patching(n, Get(s, n), todo - {n}))
          || (todo == {} && pc' == Deleting(Stale(cfg, t.want.Keys, s))))
    case Patching(n, seen, todo) =>
      && n in t.want && pc' == Writing(todo) && (seen.None? ==> n !in s)
      && s' == s[n := Overlay(cfg, kind, seen, Get(s, n), t.want[n])]
    case Deleting(todo) =>
      || (exists n :: n in todo && s' == s - {n} && pc' == Deleting(todo - {n}))
      || (todo == {} && s' == s && pc' == Done)
    case _ => false
  }

  /** One step of phase `p`: it acquires a slot, makes a call, finishes or fails. */
  ghost predicate Step(job: Job, s: State, s': State, p: Phase) {
    && p in s.pcs && p in s'.pcs && s'.pcs == s.pcs[p := s'.pcs[p]]
    && var pc, pc' := s.pcs[p], s'.pcs[p];
       || (pc.Waiting? && |RunningPhases(s)| < Slots(job) && pc' == Begin(job, p) && s'.cluster == s.cluster)
       || (Running(pc) && pc'.Failed? && s'.cluster == s.cluster)
       || (!p.Kinded? && pc == Deleting({}) && pc'.Done? && s'.cluster == s.cluster)
       || (p.Kinded? && p.kind in job.tasks && job.tasks[p.kind].Task? && Running(pc)
           && CallStep(job.cfg, p.kind, job.tasks[p.kind], pc, pc', s.cluster[p.kind], s'.cluster[p.kind])
           && s'.cluster == s.cluster[p.kind := s'.cluster[p.kind]])
  }

  ghost predicate Next(job: Job, s: State, s': State) {
    exists p :: Step(job, s, s', p)
  }

  ghost predicate IsRun(job: Job, c0: Cluster, run: seq<State>) {
    && run != [] && run[0] == Start(job, c0)
    && forall i :: 0 <= i < |run| - 1 ==> Next(job, run[i], run[i + 1])
  }

  predicate Finished(s: State) {
    forall p :: p in s.pcs ==> s.pcs[p].Done?
  }

  // ---------------------------------------------------------------------------------------------
  // The invariant

  /** Where a phase stands tells exactly what its store looks like. */
  ghost predicate TaskInv(cfg: MetadataConfig, kind: Kind, t: Task, pc: Pc, s0: Store, s: Store)
    requires t.Task?
  {
    match pc
    case Waiting => s == s0
    case Writing(todo) =>
      && t.bad <= todo <= t.want.Keys + t.bad
      && s == Applied(cfg, kind, t.want, t.want.Keys - todo, s0)
    case Patching(n, seen, todo) =>
      && t.bad <= todo <= t.want.Keys + t.bad && n in t.want && n !in todo && n !in t.bad
      && s == Applied(cfg, kind, t.want, t.want.Keys - todo - {n}, s0) && seen == Get(s, n)
    case Deleting(todo) =>
      && t.bad == {} && todo <= Stale(cfg, t.want.Keys, s0)
      && s == Applied(cfg, kind, t.want, t.want.Keys, s0) - (Stale(cfg, t.want.Keys, s0) - todo)
    case Done => t.bad == {} && s == PhaseResult(cfg, kind, t.want, s0)
    case Failed => Reached(cfg, kind, t.want, t.bad == {}, s0, s)
  }

  ghost predicate PhaseInv(job: Job, c0: Cluster, s: State, p: Phase) {
    p in s.pcs &&
    match p
    case Kinded(k) =>
      k in job.tasks &&
      (if job.tasks[k].Broken? then (s.pcs[p].Waiting? || s.pcs[p].Failed?) && s.cluster[k] == c0[k]
       else TaskInv(job.cfg, k, job.tasks[k], s.pcs[p], c0[k], s.cluster[k]))
    case _ => s.pcs[p].Waiting? || s.pcs[p] == Deleting({}) || s.pcs[p].Done? || s.pcs[p].Failed?
  }

  ghost predicate Inv(job: Job, c0: Cluster, s: State) {
    && s.pcs.Keys == PhasesOf(job)
    && (forall p :: p in PhasesOf(job) ==> PhaseInv(job, c0, s, p))
    && (forall k: Kind :: k !in job.tasks ==> s.cluster[k] == c0[k])
    && |RunningPhases(s)| <= Slots(job)
  }

  /** A job is well formed when its undecodable names are not also to be written. */
  ghost predicate ValidJob(job: Job) {
    forall k :: k in job.tasks && job.tasks[k].Task? ==> job.tasks[k].bad !! job.tasks[k].want.Keys
  }

  lemma StartInv(job: Job, c0: Cluster)
    ensures Inv(job, c0, Start(job, c0))
  {
    assert RunningPhases(Start(job, c0)) == {};
  }

  /** Every call keeps the store of its phase where its program counter says it is. */
  lemma CallKeepsTask(cfg: MetadataConfig, kind: Kind, t: Task, pc: Pc, pc': Pc, s0: Store, s: Store, s': Store)
    requires t.Task? && t.bad !! t.want.Keys
    requires TaskInv(cfg, kind, t, pc, s0, s) && CallStep(cfg, kind, t, pc, pc', s, s')
    ensures TaskInv(cfg, kind, t, pc', s0, s')
  {
    match pc {
      case Writing(todo) =>
        if todo == {} {
          assert t.want.Keys - todo == t.want.Keys;
          StaleUnaffected(cfg, kind, t.want, t.want.Keys, s0);
          var all := Applied(cfg, kind, t.want, t.want.Keys, s0);
          var stale := Stale(cfg, t.want.Keys, s0);
          assert all - (stale - stale) == all;
        } else {
          var n :| n in todo && n in t.want && pc' == Patching(n, Get(s, n), todo - {n});
          assert t.want.Keys - (todo - {n}) - {n} == t.want.Keys - todo;
        }
      case Patching(n, seen, todo) =>
        var done := t.want.Keys - todo - {n};
        AppliedOneMore(cfg, kind, t.want, done, n, s0);
        OverlayIsWritten(cfg, kind, seen, t.want[n]);
        assert done + {n} == t.want.Keys - todo;
      case Deleting(todo) =>
        var all, stale := Applied(cfg, kind, t.want, t.want.Keys, s0), Stale(cfg, t.want.Keys, s0);
        StaleUnaffected(cfg, kind, t.want, t.want.Keys, s0);
        if todo == {} {
          assert stale - todo == stale;
        } else {
          var n :| n in todo && s' == s - {n} && pc' == Deleting(todo - {n});
          assert all - (stale - todo) - {n} == all - (stale - (todo - {n}));
        }
    }
  }

  /** Wherever a phase stands, its store is one it can be left with. */
  lemma TaskIsReached(cfg: MetadataConfig, kind: Kind, t: Task, pc: Pc, s0: Store, s: Store)
    requires t.Task? && TaskInv(cfg, kind, t, pc, s0, s)
    ensures Reached(cfg, kind, t.want, t.bad == {}, s0, s)
  {
    match pc
    case Waiting => UntouchedIsReached(cfg, kind, t.want, t.bad == {}, s0);
    case Deleting(todo) => StaleUnaffected(cfg, kind, t.want, t.want.Keys, s0);
    case Done => ResultIsReached(cfg, kind, t.want, s0);
    case _ =>
  }

  lemma StartOfTask(cfg: MetadataConfig, kind: Kind, t: Task, s0: Store)
    requires t.Task? && t.bad !! t.want.Keys
    ensures TaskInv(cfg, kind, t, Writing(t.want.Keys + t.bad), s0, s0)
  {
    AppliedNothing(cfg, kind, t.want, s0);
    assert t.want.Keys - (t.want.Keys + t.bad) == {};
  }

  /** The stepping phase keeps its own invariant. */
  lemma StepKeepsPhase(job: Job, c0: Cluster, s: State, s': State, p: Phase)
    requires ValidJob(job) && PhaseInv(job, c0, s, p) && Step(job, s, s', p)
    ensures PhaseInv(job, c0, s', p)
  {
    if p.Kinded? && job.tasks[p.kind].Task? {
      var k, t := p.kind, job.tasks[p.kind];
      if s.pcs[p].Waiting? {
        StartOfTask(job.cfg, k, t, c0[k]);
      } else if s'.pcs[p].Failed? {
        TaskIsReached(job.cfg, k, t, s.pcs[p], c0[k], s.cluster[k]);
      } else {
        CallKeepsTask(job.cfg, k, t, s.pcs[p], s'.pcs[p], c0[k], s.cluster[k], s'.cluster[k]);
      }
    }
  }

  /** The other phases do not notice: a step touches only its own kind. */
  lemma StepFramesOthers(job: Job, c0: Cluster, s: State, s': State, p: Phase, q: Phase)
    requires PhaseInv(job, c0, s, q) && Step(job, s, s', p) && p != q
    ensures PhaseInv(job, c0, s', q)
  {
    if q.Kinded? { assert s'.cluster[q.kind] == s.cluster[q.kind]; }
  }

  lemma StepKeepsSlots(job: Job, s: State, s': State, p: Phase)
    requires Step(job, s, s', p) && |RunningPhases(s)| <= Slots(job)
    ensures |RunningPhases(s')| <= Slots(job)
  {
    if s.pcs[p].Waiting? {
      assert RunningPhases(s') <= RunningPhases(s) + {p};
      SubsetSize(RunningPhases(s'), RunningPhases(s) + {p});
    } else {
      assert RunningPhases(s') <= RunningPhases(s);
      SubsetSize(RunningPhases(s'), RunningPhases(s));
    }
  }

  lemma {:induction false} SubsetSize<T>(a: set<T>, b: set<T>)
    requires a <= b
    ensures |a| <= |b|
  {
    if a != {} {
      var x :| x in a;
      SubsetSize(a - {x}, b - {x});
    }
  }

  lemma StepInv(job: Job, c0: Cluster, s: State, s': State, p: Phase)
    requires ValidJob(job) && Inv(job, c0, s) && Step(job, s, s', p)
    ensures Inv(job, c0, s')
  {
    assert s'.pcs.Keys == s.pcs.Keys;
    forall q | q in PhasesOf(job) ensures PhaseInv(job, c0, s', q) {
      if q == p { StepKeepsPhase(job, c0, s, s', p); } else { StepFramesOthers(job, c0, s, s', p, q); }
    }
    StepKeepsSlots(job, s, s', p);
  }

  /** The invariant holds in every state of every run. */
  lemma {:induction false} RunInv(job: Job, c0: Cluster, run: seq<State>, i: nat)
    requires ValidJob(job) && IsRun(job, c0, run) && i < |run|
    ensures Inv(job, c0, run[i])
  {
    if i == 0 {
      StartInv(job, c0);
    } else {
      RunInv(job, c0, run, i - 1);
      assert Next(job, run[i - 1], run[i - 1 + 1]);
      var p :| Step(job, run[i - 1], run[i], p);
      StepInv(job, c0, run[i - 1], run[i], p);
    }
  }

  // ---------------------------------------------------------------------------------------------
  // The theorems

  /** In no reachable state do more than max(1, ReconcileMax) phases run. */
  lemma BoundedConcurrency(job: Job, c0: Cluster, run: seq<State>, i: nat)
    requires ValidJob(job) && IsRun(job, c0, run) && i < |run|
    ensures var busy := set p | p in run[i].pcs
                        && (run[i].pcs[p].Writing? || run[i].pcs[p].Patching? || run[i].pcs[p].Deleting?);
            |busy| <= if job.reconcileMax < 1 then 1 else job.reconcileMax
  {
    RunInv(job, c0, run, i);
    assert RunningPhases(run[i]) == set p | p in run[i].pcs
      && (run[i].pcs[p].Writing? || run[i].pcs[p].Patching? || run[i].pcs[p].Deleting?);
  }

  /**
    Whatever fails and whenever, every state of every run is safe for every kind: nothing desired or
    foreign is lost, stale objects go only after everything desired was written, a kind whose routers
    do not transform is untouched, and so is every kind that has no phase.
   */
  lemma EveryStateIsSafe(job: Job, c0: Cluster, run: seq<State>, i: nat, k: Kind)
    requires ValidJob(job) && IsRun(job, c0, run) && i < |run|
    ensures k in job.tasks && job.tasks[k].Task? ==>
              Reached(job.cfg, k, job.tasks[k].want, job.tasks[k].bad == {}, c0[k], run[i].cluster[k])
    ensures k in job.tasks && job.tasks[k].Task? ==> SafePoint(job.cfg, k, job.tasks[k].want, c0[k], run[i].cluster[k])
    ensures k !in job.tasks || job.tasks[k].Broken? ==> run[i].cluster[k] == c0[k]
  {
    RunInv(job, c0, run, i);
    if k in job.tasks {
      assert Kinded(k) in PhasesOf(job);
      assert PhaseInv(job, c0, run[i], Kinded(k));
      if job.tasks[k].Task? {
        TaskIsReached(job.cfg, k, job.tasks[k], run[i].pcs[Kinded(k)], c0[k], run[i].cluster[k]);
        ReachedIsSafe(job.cfg, k, job.tasks[k].want, job.tasks[k].bad == {}, c0[k], run[i].cluster[k]);
      }
    }
  }

  /** A listing of the phases: each kind of the job once, with what it wants. */
  ghost predicate Lists(job: Job, phases: seq<(Kind, Wanted)>) {
    && (forall i, j :: 0 <= i < j < |phases| ==> phases[i].0 != phases[j].0)
    && (forall i :: 0 <= i < |phases| ==>
      phases[i].0 in job.tasks && job.tasks[phases[i].0].Task? && phases[i].1 == job.tasks[phases[i].0].want)
    && (forall k :: k in job.tasks ==> exists i :: 0 <= i < |phases| && phases[i].0 == k)
  }

  /** Phases on distinct kinds: each kind ends as its own phase leaves it, in whatever order they ran. */
  lemma {:induction false} SequentialByKind(cfg: MetadataConfig, phases: seq<(Kind, Wanted)>, c: Cluster, k: Kind)
    requires forall i, j :: 0 <= i < j < |phases| ==> phases[i].0 != phases[j].0
    ensures (forall i :: 0 <= i < |phases| ==> phases[i].0 != k) ==> RunPhases(cfg, phases, c)[k] == c[k]
    ensures forall i :: 0 <= i < |phases| && phases[i].0 == k ==>
              RunPhases(cfg, phases, c)[k] == PhaseResult(cfg, k, phases[i].1, c[k])
  {
    if phases != [] {
      var (k0, w0) := phases[0];
      var rest := phases[1..];
      assert forall i :: 0 <= i < |rest| ==> rest[i] == phases[i + 1];
      SequentialByKind(cfg, rest, c[k0 := PhaseResult(cfg, k0, w0, c[k0])], k);
      forall i | 0 <= i < |phases| && phases[i].0 == k
        ensures RunPhases(cfg, phases, c)[k] == PhaseResult(cfg, k, phases[i].1, c[k])
      {
        if i > 0 { assert rest[i - 1] == phases[i]; }
      }
    }
  }

  lemma FinishedKind(job: Job, c0: Cluster, end: State, phases: seq<(Kind, Wanted)>, k: Kind)
    requires Inv(job, c0, end) && Finished(end) && Lists(job, phases)
    ensures end.cluster[k] == RunPhases(job.cfg, phases, c0)[k]
  {
    SequentialByKind(job.cfg, phases, c0, k);
    if k in job.tasks {
      assert Kinded(k) in PhasesOf(job);
      assert PhaseInv(job, c0, end, Kinded(k));
      var i :| 0 <= i < |phases| && phases[i].0 == k;
    }
  }

  /** Every run in which all phases finish ends in exactly the cluster of the sequential reconcile. */
  lemma ParallelEqualsSequential(job: Job, c0: Cluster, run: seq<State>, phases: seq<(Kind, Wanted)>)
    requires ValidJob(job) && IsRun(job, c0, run) && Finished(run[|run| - 1])
    requires Lists(job, phases)
    ensures run[|run| - 1].cluster == RunPhases(job.cfg, phases, c0)
  {
    var end := run[|run| - 1];
    RunInv(job, c0, run, |run| - 1);
    forall k: Kind ensures end.cluster[k] == RunPhases(job.cfg, phases, c0)[k] {
      FinishedKind(job, c0, end, phases, k);
    }
    assert end.cluster.Keys == RunPhases(job.cfg, phases, c0).Keys;
  }

  /** A run can only finish if every document decoded and every router transformed. */
  lemma FinishingNeedsGoodInput(job: Job, c0: Cluster, run: seq<State>, k: Kind)
    requires ValidJob(job) && IsRun(job, c0, run) && Finished(run[|run| - 1]) && k in job.tasks
    ensures job.tasks[k].Task? && job.tasks[k].bad == {}
  {
    RunInv(job, c0, run, |run| - 1);
    assert Kinded(k) in PhasesOf(job);
    assert PhaseInv(job, c0, run[|run| - 1], Kinded(k));
  }

  // ---------------------------------------------------------------------------------------------
  // No deadlock

  /** A phase in the middle of good work always has a call to make. */
  lemma CallEnabled(cfg: MetadataConfig, kind: Kind, t: Task, pc: Pc, s0: Store, s: Store) returns (pc': Pc, s': Store)
    requires t.Task? && t.bad == {} && TaskInv(cfg, kind, t, pc, s0, s) && Running(pc)
    ensures CallStep(cfg, kind, t, pc, pc', s, s') && !pc'.Failed?
  {
    match pc
    case Writing(todo) =>
      s' := s;
      if todo == {} {
        pc' := Deleting(Stale(cfg, t.want.Keys, s));
      } else {
        var n :| n in todo;
        pc' := Patching(n, Get(s, n), todo - {n});
      }
    case Patching(n, seen, todo) =>
      s', pc' := s[n := Overlay(cfg, kind, seen, Get(s, n), t.want[n])], Writing(todo);
    case Deleting(todo) =>
      if todo == {} {
        s', pc' := s, Done;
      } else {
        var n :| n in todo;
        s', pc' := s - {n}, Deleting(todo - {n});
      }
  }

  predicate GoodInput(job: Job) {
    forall k :: k in job.tasks ==> job.tasks[k].Task? && job.tasks[k].bad == {}
  }

  lemma RunningProceeds(job: Job, c0: Cluster, s: State, p: Phase) returns (s': State)
    requires PhaseInv(job, c0, s, p) && GoodInput(job) && Running(s.pcs[p])
    ensures Step(job, s, s', p) && !s'.pcs[p].Failed?
  {
    if p.Kinded? {
      var pc', store := CallEnabled(job.cfg, p.kind, job.tasks[p.kind], s.pcs[p], c0[p.kind], s.cluster[p.kind]);
      s' := State(s.cluster[p.kind := store], s.pcs[p := pc']);
    } else {
      s' := State(s.cluster, s.pcs[p := Done]);
    }
  }

  /** With good input and no failure so far, some phase can proceed without failing until all are done. */
  lemma NoDeadlock(job: Job, c0: Cluster, s: State) returns (p: Phase, s': State)
    requires Inv(job, c0, s) && GoodInput(job) && !Finished(s)
    requires forall q :: q in s.pcs ==> !s.pcs[q].Failed?
    ensures Step(job, s, s', p) && !s'.pcs[p].Failed?
  {
    if RunningPhases(s) != {} {
      p :| p in RunningPhases(s);
      s' := RunningProceeds(job, c0, s, p);
    } else {
      p :| p in s.pcs && !s.pcs[p].Done?;
      assert p !in RunningPhases(s);
      s' := State(s.cluster, s.pcs[p := Begin(job, p)]);
    }
  }

  // ---------------------------------------------------------------------------------------------
  // Every run ends

  /** The calls a phase of kind `kind` has before it, at most: two per object to write, one per object to delete. */
  function TaskWork(t: Task, pc: Pc, s0: Store): nat {
    match pc
    case Waiting => (if t.Task? then 2 * |t.want.Keys + t.bad| else 0) + |s0| + 3
    case Writing(todo) => 2 * |todo| + |s0| + 2
    case Patching(_, _, todo) => 2 * |todo| + |s0| + 3
    case Deleting(todo) => |todo| + 1
    case _ => 0
  }

  function PhaseWork(job: Job, c0: Cluster, s: State, p: Phase): nat {
    if p !in s.pcs then 0
    else if p.Kinded? && p.kind in job.tasks then TaskWork(job.tasks[p.kind], s.pcs[p], c0[p.kind])
    else if s.pcs[p].Waiting? then 2 else if Running(s.pcs[p]) then 1 else 0
  }

  const ALL_PHASES: seq<Phase> :=
    [Kinded(Middleware), Kinded(IngressRoute), Kinded(TraefikService), Kinded(ServersTransport),
      Kinded(IngressRouteTCP),
     Kinded(IngressRouteUDP), Kinded(ServersTransportTCP), Kinded(CoreService), Kinded(EndpointSlice),
       Kinded(OtherKind), Tcp, Udp]

  function WorkOf(job: Job, c0: Cluster, s: State, ps: seq<Phase>): nat {
    if ps == [] then 0 else PhaseWork(job, c0, s, ps[0]) + WorkOf(job, c0, s, ps[1..])
  }

  function Work(job: Job, c0: Cluster, s: State): nat { WorkOf(job, c0, s, ALL_PHASES) }

  /** A call leaves its phase less to do. */
  lemma CallDoesWork(cfg: MetadataConfig, kind: Kind, t: Task, pc: Pc, pc': Pc, s0: Store, s: Store, s': Store)
    requires t.Task? && TaskInv(cfg, kind, t, pc, s0, s) && CallStep(cfg, kind, t, pc, pc', s, s')
    ensures TaskWork(t, pc', s0) < TaskWork(t, pc, s0)
  {
    if pc.Writing? && pc.todo == {} {
      FewStale(cfg, kind, t, s0, s);
    }
  }

  lemma FewStale(cfg: MetadataConfig, kind: Kind, t: Task, s0: Store, s: Store)
    requires t.Task? && TaskInv(cfg, kind, t, Writing({}), s0, s)
    ensures |Stale(cfg, t.want.Keys, s)| <= |s0|
  {
    assert t.want.Keys - {} == t.want.Keys;
    StaleUnaffected(cfg, kind, t.want, t.want.Keys, s0);
    SubsetSize(Stale(cfg, t.want.Keys, s0), s0.Keys);
  }

  lemma StepDoesWork(job: Job, c0: Cluster, s: State, s': State, p: Phase)
    requires ValidJob(job) && PhaseInv(job, c0, s, p) && Step(job, s, s', p)
    ensures PhaseWork(job, c0, s', p) < PhaseWork(job, c0, s, p)
    ensures forall q :: q != p ==> PhaseWork(job, c0, s', q) == PhaseWork(job, c0, s, q)
  {
    if p.Kinded? && Running(s.pcs[p]) && !s'.pcs[p].Failed? {
      CallDoesWork(job.cfg, p.kind, job.tasks[p.kind], s.pcs[p], s'.pcs[p], c0[p.kind], s.cluster[p.kind],
        s'.cluster[p.kind]);
    }
  }

  lemma {:induction false} SumDrops(job: Job, c0: Cluster, s: State, s': State, p: Phase, ps: seq<Phase>)
    requires PhaseWork(job, c0, s', p) < PhaseWork(job, c0, s, p)
    requires forall q :: q != p ==> PhaseWork(job, c0, s', q) == PhaseWork(job, c0, s, q)
    ensures WorkOf(job, c0, s', ps) <= WorkOf(job, c0, s, ps)
    ensures p in ps ==> WorkOf(job, c0, s', ps) < WorkOf(job, c0, s, ps)
  {
    if ps != [] { SumDrops(job, c0, s, s', p, ps[1..]); }
  }

  lemma IsListed(p: Phase)
    ensures p in ALL_PHASES
  {
    match p
    case Tcp => assert ALL_PHASES[10] == p;
    case Udp => assert ALL_PHASES[11] == p;
    case Kinded(k) =>
      var i := match k case Middleware => 0 case IngressRoute => 1 case TraefikService => 2 case ServersTransport => 3
        case IngressRouteTCP => 4
                       case IngressRouteUDP => 5 case ServersTransportTCP => 6 case CoreService => 7
                         case EndpointSlice => 8 case OtherKind => 9;
      assert ALL_PHASES[i] == p;
  }

  /** Every step, failing or not, leaves less to do. */
  lemma WorkDrops(job: Job, c0: Cluster, s: State, s': State, p: Phase)
    requires ValidJob(job) && Inv(job, c0, s) && Step(job, s, s', p)
    ensures Work(job, c0, s') < Work(job, c0, s)
  {
    assert PhaseInv(job, c0, s, p);
    StepDoesWork(job, c0, s, s', p);
    IsListed(p);
    SumDrops(job, c0, s, s', p, ALL_PHASES);
  }

  /** So no run is longer than what there is to do at its start. */
  lemma {:induction false} RunsAreBounded(job: Job, c0: Cluster, run: seq<State>, i: nat)
    requires ValidJob(job) && IsRun(job, c0, run) && i < |run|
    ensures i + Work(job, c0, run[i]) <= Work(job, c0, Start(job, c0))
  {
    if i > 0 {
      RunsAreBounded(job, c0, run, i - 1);
      RunInv(job, c0, run, i - 1);
      assert Next(job, run[i - 1], run[i - 1 + 1]);
      var p :| Step(job, run[i - 1], run[i], p);
      WorkDrops(job, c0, run[i - 1], run[i], p);
    }
  }

  predicate NothingFailed(s: State) {
    forall p :: p in s.pcs ==> !s.pcs[p].Failed?
  }

  /** With good input, a run in which nothing has failed can be continued until it finishes. */
  lemma {:induction false} CanFinish(job: Job, c0: Cluster, run: seq<State>) returns (more: seq<State>)
    requires ValidJob(job) && IsRun(job, c0, run) && GoodInput(job) && NothingFailed(run[|run| - 1])
    ensures IsRun(job, c0, run + more) && Finished((run + more)[|run + more| - 1])
    decreases Work(job, c0, run[|run| - 1])
  {
    if Finished(run[|run| - 1]) {
      more := [];
      assert run + [] == run;
    } else {
      var next := OneMoreStep(job, c0, run);
      var longer := run + [next];
      assert longer[|longer| - 1] == next;
      var rest := CanFinish(job, c0, longer);
      more := [next] + rest;
      assert run + more == longer + rest;
    }
  }

  lemma OneMoreStep(job: Job, c0: Cluster, run: seq<State>) returns (next: State)
    requires ValidJob(job) && IsRun(job, c0, run) && GoodInput(job) && NothingFailed(run[|run| - 1])
             && !Finished(run[|run| - 1])
    ensures IsRun(job, c0, run + [next]) && NothingFailed(next)
    ensures Work(job, c0, next) < Work(job, c0, run[|run| - 1])
  {
    var end := run[|run| - 1];
    RunInv(job, c0, run, |run| - 1);
    var p;
    p, next := NoDeadlock(job, c0, end);
    WorkDrops(job, c0, end, next, p);
    RunExtends(job, c0, run, next, p);
    StepKeepsGoing(job, end, next, p);
  }

  lemma StepKeepsGoing(job: Job, s: State, s': State, p: Phase)
    requires NothingFailed(s) && Step(job, s, s', p) && !s'.pcs[p].Failed?
    ensures NothingFailed(s')
  {
  }

  lemma RunExtends(job: Job, c0: Cluster, run: seq<State>, next: State, p: Phase)
    requires IsRun(job, c0, run) && Step(job, run[|run| - 1], next, p)
    ensures IsRun(job, c0, run + [next])
  {
    var longer := run + [next];
    forall i | 0 <= i < |longer| - 1 ensures Next(job, longer[i], longer[i + 1]) {
      if i < |run| - 1 { assert Next(job, run[i], run[i + 1]); }
    }
  }

  // ---------------------------------------------------------------------------------------------
  // The sequential reconcile as a run

  /** The place of a phase in the sequential order. */
  function Order(p: Phase): nat {
    match p
    case Kinded(k) => if Rank(k) < PHASES then Rank(k) else PHASES + 2
    case Tcp => PHASES
    case Udp => PHASES + 1
  }

  /** All phases before `p` are over. */
  predicate ItsTurn(s: State, p: Phase) {
    forall q :: q in s.pcs && Order(q) < Order(p) ==> s.pcs[q].Done?
  }

  /** A phase begins only when all phases before it are over. */
  ghost predicate InTurn(s: State, s': State) {
    forall p :: p in s.pcs && p in s'.pcs && s.pcs[p].Waiting? && !s'.pcs[p].Waiting? ==> ItsTurn(s, p)
  }

  /** A run of the parallel form, or, if `inOrder`, of the sequential one. */
  ghost predicate RunIn(job: Job, c0: Cluster, inOrder: bool, run: seq<State>) {
    IsRun(job, c0, run) && (inOrder ==> forall i :: 0 <= i < |run| - 1 ==> InTurn(run[i], run[i + 1]))
  }

  lemma RunInExtends(job: Job, c0: Cluster, inOrder: bool, run: seq<State>, next: State, p: Phase)
    requires RunIn(job, c0, inOrder, run) && Step(job, run[|run| - 1], next, p)
    requires inOrder ==> InTurn(run[|run| - 1], next)
    ensures RunIn(job, c0, inOrder, run + [next])
  {
    RunExtends(job, c0, run, next, p);
    var longer := run + [next];
    forall i | inOrder && 0 <= i < |longer| - 1 ensures InTurn(longer[i], longer[i + 1]) {
      if i < |run| - 1 { assert InTurn(run[i], run[i + 1]); }
    }
  }

  // ---------------------------------------------------------------------------------------------
  // Every stopping point is reached

  /** The state `base`, except for the phase of kind `k`. */
  function At(base: State, k: Kind, pc: Pc, s: Store): State {
    State(base.cluster[k := s], base.pcs[Kinded(k) := pc])
  }

  /** A run that ends in the given state of that phase. */
  ghost predicate EndsIn(job: Job, c0: Cluster, inOrder: bool, run: seq<State>, end: State) {
    RunIn(job, c0, inOrder, run) && run[|run| - 1] == end
  }

  /** Nobody runs, and the phase of kind `k` may begin. */
  ghost predicate MayBegin(job: Job, c0: Cluster, inOrder: bool, run: seq<State>, k: Kind) {
    && RunIn(job, c0, inOrder, run)
    && var base := run[|run| - 1];
       && RunningPhases(base) == {} && Kinded(k) in base.pcs && base.pcs[Kinded(k)].Waiting?
       && (inOrder ==> ItsTurn(base, Kinded(k)))
  }

  lemma OneCall(job: Job, c0: Cluster, inOrder: bool, run: seq<State>, base: State, k: Kind, pc: Pc, s: Store, pc': Pc,
                s': Store)
    returns (longer: seq<State>)
    requires k in job.tasks && job.tasks[k].Task? && Running(pc) && EndsIn(job, c0, inOrder, run, At(base, k, pc, s))
    requires CallStep(job.cfg, k, job.tasks[k], pc, pc', s, s') || (pc'.Failed? && s' == s)
    ensures EndsIn(job, c0, inOrder, longer, At(base, k, pc', s'))
  {
    var next := At(base, k, pc', s');
    CallIsStep(job, base, k, pc, s, pc', s');
    RunInExtends(job, c0, inOrder, run, next, Kinded(k));
    longer := run + [next];
  }

  lemma CallIsStep(job: Job, base: State, k: Kind, pc: Pc, s: Store, pc': Pc, s': Store)
    requires k in job.tasks && job.tasks[k].Task? && Running(pc)
    requires CallStep(job.cfg, k, job.tasks[k], pc, pc', s, s') || (pc'.Failed? && s' == s)
    ensures Step(job, At(base, k, pc, s), At(base, k, pc', s'), Kinded(k))
    ensures InTurn(At(base, k, pc, s), At(base, k, pc', s'))
  {
    var end, next := At(base, k, pc, s), At(base, k, pc', s');
    assert next.pcs == end.pcs[Kinded(k) := pc'] && next.cluster == end.cluster[k := s'];
  }

  lemma BeginPhase(job: Job, c0: Cluster, inOrder: bool, run: seq<State>, k: Kind) returns (longer: seq<State>)
    requires k in job.tasks && MayBegin(job, c0, inOrder, run, k)
    ensures var base := run[|run| - 1];
            EndsIn(job, c0, inOrder, longer, At(base, k, Begin(job, Kinded(k)), base.cluster[k]))
  {
    var base := run[|run| - 1];
    var next := At(base, k, Begin(job, Kinded(k)), base.cluster[k]);
    assert next.cluster == base.cluster;
    assert Step(job, base, next, Kinded(k));
    RunInExtends(job, c0, inOrder, run, next, Kinded(k));
    longer := run + [next];
  }

  /** Any of the objects can be the ones written first. */
  lemma {:induction false} CanWrite(job: Job, c0: Cluster, inOrder: bool, run: seq<State>, k: Kind, done: set<string>)
    returns (longer: seq<State>)
    requires ValidJob(job) && k in job.tasks && job.tasks[k].Task? && done <= job.tasks[k].want.Keys
    requires MayBegin(job, c0, inOrder, run, k)
    ensures var t, base := job.tasks[k], run[|run| - 1];
            EndsIn(job, c0, inOrder, longer,
                   At(base, k, Writing(t.want.Keys + t.bad - done), Applied(job.cfg, k, t.want, done, base.cluster[k])))
    decreases done
  {
    var t, base := job.tasks[k], run[|run| - 1];
    var s0 := base.cluster[k];
    if done == {} {
      longer := BeginPhase(job, c0, inOrder, run, k);
      AppliedNothing(job.cfg, k, t.want, s0);
      assert t.want.Keys + t.bad - done == t.want.Keys + t.bad;
    } else {
      var n :| n in done;
      var todo, s := t.want.Keys + t.bad - (done - {n}), Applied(job.cfg, k, t.want, done - {n}, s0);
      longer := CanWrite(job, c0, inOrder, run, k, done - {n});
      AppliedOneMore(job.cfg, k, t.want, done - {n}, n, s0);
      OverlayIsWritten(job.cfg, k, Get(s, n), t.want[n]);
      assert done - {n} + {n} == done && todo - {n} == t.want.Keys + t.bad - done;
      var pc := Patching(n, Get(s, n), todo - {n});
      longer := OneCall(job, c0, inOrder, longer, base, k, Writing(todo), s, pc, s);
      longer := OneCall(job, c0, inOrder, longer, base, k, pc, s, Writing(todo - {n}),
        Applied(job.cfg, k, t.want, done, s0));
    }
  }

  /** And once all are written any of the stale ones can be the ones deleted first. */
  lemma {:induction false} CanDelete(job: Job, c0: Cluster, inOrder: bool, run: seq<State>, k: Kind, gone: set<string>)
    returns (longer: seq<State>)
    requires ValidJob(job) && k in job.tasks && job.tasks[k].Task? && job.tasks[k].bad == {}
    requires MayBegin(job, c0, inOrder, run, k)
    requires gone <= Stale(job.cfg, job.tasks[k].want.Keys, run[|run| - 1].cluster[k])
    ensures var t, base := job.tasks[k], run[|run| - 1];
            EndsIn(job, c0, inOrder, longer,
                   At(base, k, Deleting(Stale(job.cfg, t.want.Keys, base.cluster[k]) - gone),
                      Applied(job.cfg, k, t.want, t.want.Keys, base.cluster[k]) - gone))
    decreases gone
  {
    var t, base := job.tasks[k], run[|run| - 1];
    var all, stale := Applied(job.cfg, k, t.want, t.want.Keys, base.cluster[k]),
      Stale(job.cfg, t.want.Keys, base.cluster[k]);
    if gone == {} {
      longer := CanWrite(job, c0, inOrder, run, k, t.want.Keys);
      StaleUnaffected(job.cfg, k, t.want, t.want.Keys, base.cluster[k]);
      assert t.want.Keys + t.bad - t.want.Keys == {} && stale - gone == stale && all - gone == all;
      longer := OneCall(job, c0, inOrder, longer, base, k, Writing({}), all, Deleting(stale), all);
    } else {
      var n :| n in gone;
      var less := gone - {n};
      longer := CanDelete(job, c0, inOrder, run, k, less);
      assert stale - less - {n} == stale - gone && all - less - {n} == all - gone;
      longer := OneCall(job, c0, inOrder, longer, base, k, Deleting(stale - less), all - less, Deleting(stale - gone),
        all - gone);
    }
  }

  /** A phase with good input can run to its end. */
  lemma CanComplete(job: Job, c0: Cluster, inOrder: bool, run: seq<State>, k: Kind) returns (longer: seq<State>)
    requires ValidJob(job) && k in job.tasks && job.tasks[k].Task? && job.tasks[k].bad == {}
    requires MayBegin(job, c0, inOrder, run, k)
    ensures var t, base := job.tasks[k], run[|run| - 1];
            EndsIn(job, c0, inOrder, longer, At(base, k, Done, PhaseResult(job.cfg, k, t.want, base.cluster[k])))
  {
    var t, base := job.tasks[k], run[|run| - 1];
    var all, stale := Applied(job.cfg, k, t.want, t.want.Keys, base.cluster[k]),
      Stale(job.cfg, t.want.Keys, base.cluster[k]);
    StaleUnaffected(job.cfg, k, t.want, t.want.Keys, base.cluster[k]);
    longer := CanDelete(job, c0, inOrder, run, k, stale);
    assert stale - stale == {};
    longer := OneCall(job, c0, inOrder, longer, base, k, Deleting({}), all - stale, Done, all - stale);
  }

  /** Where the phase of kind `k` can stop. */
  ghost predicate TaskStops(job: Job, k: Kind, before: Store, now: Store)
    requires k in job.tasks
  {
    match job.tasks[k]
    case Broken => now == before
    case Task(want, bad) => Reached(job.cfg, k, want, bad == {}, before, now)
  }

  /** Every store a phase can be left with is what some run leaves in which that phase fails. */
  lemma CanStop(job: Job, c0: Cluster, inOrder: bool, run: seq<State>, k: Kind, now: Store) returns (longer: seq<State>)
    requires ValidJob(job) && k in job.tasks && MayBegin(job, c0, inOrder, run, k)
    requires TaskStops(job, k, run[|run| - 1].cluster[k], now)
    ensures EndsIn(job, c0, inOrder, longer, At(run[|run| - 1], k, Failed, now))
  {
    var t, base := job.tasks[k], run[|run| - 1];
    var s0 := base.cluster[k];
    if t.Broken? {
      longer := BeginPhase(job, c0, inOrder, run, k);
    } else if done :| now == Applied(job.cfg, k, t.want, done, s0) {
      var first := done * t.want.Keys;
      assert now == Applied(job.cfg, k, t.want, first, s0) by { OnlyWantedMatter(job.cfg, k, t.want, done, s0); }
      longer := CanWrite(job, c0, inOrder, run, k, first);
      longer := OneCall(job, c0, inOrder, longer, base, k, Writing(t.want.Keys + t.bad - first), now, Failed, now);
    } else {
      var all := Applied(job.cfg, k, t.want, t.want.Keys, s0);
      var gone :| gone <= Stale(job.cfg, t.want.Keys, all) && now == all - gone;
      StaleUnaffected(job.cfg, k, t.want, t.want.Keys, s0);
      longer := CanDelete(job, c0, inOrder, run, k, gone);
      longer := OneCall(job, c0, inOrder, longer, base, k, Deleting(Stale(job.cfg, t.want.Keys, s0) - gone), now,
        Failed, now);
    }
  }

  lemma OnlyWantedMatter(cfg: MetadataConfig, kind: Kind, want: Wanted, done: set<string>, s: Store)
    ensures Applied(cfg, kind, want, done * want.Keys, s) == Applied(cfg, kind, want, done, s)
  {
  }

  // ---------------------------------------------------------------------------------------------
  // Whole reconciles that stop

  /** The job has exactly the phases of the HTTP section. */
  ghost predicate HttpJob(job: Job) {
    ValidJob(job) && forall k: Kind :: k in job.tasks <==> Rank(k) < PHASES
  }

  /** The phases before place `j` ended as `pc` with the stores of `now`; the others have not begun. */
  function FirstEnded(job: Job, c0: Cluster, j: nat, pc: Pc, now: Cluster): State {
    State(map i: Kind | true :: if Rank(i) < j then now[i] else c0[i],
          map p | p in PhasesOf(job) :: if Order(p) < j then pc else Waiting)
  }

  lemma NextMayBegin(job: Job, c0: Cluster, inOrder: bool, run: seq<State>, j: nat, pc: Pc, now: Cluster)
    requires HttpJob(job) && j < PHASES && (pc.Done? || (pc.Failed? && !inOrder))
    requires EndsIn(job, c0, inOrder, run, FirstEnded(job, c0, j, pc, now))
    ensures MayBegin(job, c0, inOrder, run, KindAt(j)) && run[|run| - 1].cluster[KindAt(j)] == c0[KindAt(j)]
  {
    var base := run[|run| - 1];
    assert Kinded(KindAt(j)) in PhasesOf(job);
    assert RunningPhases(base) == {};
  }

  lemma OneMoreEnded(job: Job, c0: Cluster, j: nat, pc: Pc, now: Cluster)
    requires HttpJob(job) && j < PHASES
    ensures At(FirstEnded(job, c0, j, pc, now), KindAt(j), pc, now[KindAt(j)]) == FirstEnded(job, c0, j + 1, pc, now)
  {
    var k := KindAt(j);
    var a, b := At(FirstEnded(job, c0, j, pc, now), k, pc, now[k]), FirstEnded(job, c0, j + 1, pc, now);
    assert Kinded(k) in PhasesOf(job);
    assert a.cluster.Keys == b.cluster.Keys && a.pcs.Keys == b.pcs.Keys;
    forall i: Kind ensures a.cluster[i] == b.cluster[i] { assert Rank(i) == j ==> i == k; }
    forall p | p in b.pcs ensures a.pcs[p] == b.pcs[p] { OrderIsUnique(job, p, k); }
    assert a.cluster == b.cluster && a.pcs == b.pcs;
  }

  lemma OrderIsUnique(job: Job, p: Phase, k: Kind)
    requires HttpJob(job) && Rank(k) < PHASES
    ensures Order(p) == Order(Kinded(k)) <==> p == Kinded(k)
  {
  }

  lemma NoneEnded(job: Job, c0: Cluster, inOrder: bool, pc: Pc, now: Cluster) returns (run: seq<State>)
    ensures EndsIn(job, c0, inOrder, run, FirstEnded(job, c0, 0, pc, now))
  {
    run := [Start(job, c0)];
    var s := FirstEnded(job, c0, 0, pc, now);
    assert s.cluster == c0 && s.pcs == Start(job, c0).pcs;
  }

  /** What completing the first phases makes of the cluster. */
  ghost predicate CompletesAt(job: Job, c0: Cluster, now: Cluster, k: Kind) {
    && k in job.tasks && job.tasks[k].Task? && job.tasks[k].bad == {}
    && now[k] == PhaseResult(job.cfg, k, job.tasks[k].want, c0[k])
  }

  ghost predicate StopsAt(job: Job, c0: Cluster, now: Cluster, k: Kind) {
    k in job.tasks && TaskStops(job, k, c0[k], now[k])
  }

  lemma CompleteNext(job: Job, c0: Cluster, inOrder: bool, run: seq<State>, j: nat, now: Cluster)
    returns (longer: seq<State>)
    requires HttpJob(job) && j < PHASES && CompletesAt(job, c0, now, KindAt(j))
    requires EndsIn(job, c0, inOrder, run, FirstEnded(job, c0, j, Done, now))
    ensures EndsIn(job, c0, inOrder, longer, FirstEnded(job, c0, j + 1, Done, now))
  {
    NextMayBegin(job, c0, inOrder, run, j, Done, now);
    longer := CanComplete(job, c0, inOrder, run, KindAt(j));
    OneMoreEnded(job, c0, j, Done, now);
  }

  lemma StopNext(job: Job, c0: Cluster, run: seq<State>, j: nat, now: Cluster) returns (longer: seq<State>)
    requires HttpJob(job) && j < PHASES && StopsAt(job, c0, now, KindAt(j))
    requires EndsIn(job, c0, false, run, FirstEnded(job, c0, j, Failed, now))
    ensures EndsIn(job, c0, false, longer, FirstEnded(job, c0, j + 1, Failed, now))
  {
    NextMayBegin(job, c0, false, run, j, Failed, now);
    longer := CanStop(job, c0, false, run, KindAt(j), now[KindAt(j)]);
    OneMoreEnded(job, c0, j, Failed, now);
  }

  /** The first phases can be completed one after another. */
  lemma {:induction false} CompleteFirst(job: Job, c0: Cluster, inOrder: bool, j: nat, now: Cluster)
    returns (run: seq<State>)
    requires HttpJob(job) && j <= PHASES && forall k: Kind :: Rank(k) < j ==> CompletesAt(job, c0, now, k)
    ensures EndsIn(job, c0, inOrder, run, FirstEnded(job, c0, j, Done, now))
  {
    if j == 0 {
      run := NoneEnded(job, c0, inOrder, Done, now);
    } else {
      run := CompleteFirst(job, c0, inOrder, j - 1, now);
      run := CompleteNext(job, c0, inOrder, run, j - 1, now);
    }
  }

  /** And each of them can be stopped, if they need not wait for each other. */
  lemma {:induction false} StopFirst(job: Job, c0: Cluster, j: nat, now: Cluster) returns (run: seq<State>)
    requires HttpJob(job) && j <= PHASES && forall k: Kind :: Rank(k) < j ==> StopsAt(job, c0, now, k)
    ensures EndsIn(job, c0, false, run, FirstEnded(job, c0, j, Failed, now))
  {
    if j == 0 {
      run := NoneEnded(job, c0, false, Failed, now);
    } else {
      run := StopFirst(job, c0, j - 1, now);
      run := StopNext(job, c0, run, j - 1, now);
    }
  }

  /** Every phase has come to an end. */
  predicate Ended(s: State) {
    forall p :: p in s.pcs ==> s.pcs[p].Done? || s.pcs[p].Failed?
  }

  /** A TCP or UDP phase takes its slot and is done. */
  lemma DoEmptyPhase(job: Job, c0: Cluster, run: seq<State>, p: Phase) returns (longer: seq<State>)
    requires IsRun(job, c0, run) && !p.Kinded? && p in run[|run| - 1].pcs
    requires RunningPhases(run[|run| - 1]) == {} && run[|run| - 1].pcs[p].Waiting?
    ensures IsRun(job, c0, longer)
    ensures longer[|longer| - 1] == State(run[|run| - 1].cluster, run[|run| - 1].pcs[p := Done])
  {
    var base := run[|run| - 1];
    var s1, s2 := State(base.cluster, base.pcs[p := Deleting({})]), State(base.cluster, base.pcs[p := Done]);
    assert Step(job, base, s1, p);
    assert s2.pcs == s1.pcs[p := Done];
    assert Step(job, s1, s2, p);
    RunExtends(job, c0, run, s1, p);
    RunExtends(job, c0, run + [s1], s2, p);
    longer := run + [s1] + [s2];
  }

  /** A parallel reconcile in which every phase ends, each where it was to stop. */
  lemma StopAll(job: Job, c0: Cluster, now: Cluster) returns (run: seq<State>)
    requires HttpJob(job) && forall k: Kind :: if Rank(k) < PHASES then StopsAt(job, c0, now, k) else now[k] == c0[k]
    ensures IsRun(job, c0, run) && run[|run| - 1].cluster == now && Ended(run[|run| - 1])
            && !NothingFailed(run[|run| - 1])
  {
    run := StopFirst(job, c0, PHASES, now);
    var s := run[|run| - 1];
    AllStopped(job, c0, now);
    run := DoEmptyPhase(job, c0, run, Tcp);
    run := DoEmptyPhase(job, c0, run, Udp);
    assert run[|run| - 1].pcs == s.pcs[Tcp := Done][Udp := Done];
    assert run[|run| - 1].pcs[Kinded(Middleware)].Failed?;
  }

  lemma AllStopped(job: Job, c0: Cluster, now: Cluster)
    requires HttpJob(job) && forall k: Kind :: Rank(k) >= PHASES ==> now[k] == c0[k]
    ensures var s := FirstEnded(job, c0, PHASES, Failed, now);
            && s.cluster == now && Tcp in s.pcs && Udp in s.pcs && s.pcs[Tcp].Waiting? && s.pcs[Udp].Waiting?
            && RunningPhases(s) == {} && RunningPhases(State(s.cluster, s.pcs[Tcp := Done])) == {}
            && Kinded(Middleware) in s.pcs && s.pcs[Kinded(Middleware)].Failed?
            && forall p :: p in s.pcs && p != Tcp && p != Udp ==> s.pcs[p].Failed?
  {
    var s := FirstEnded(job, c0, PHASES, Failed, now);
    assert s.cluster.Keys == now.Keys;
    assert Kinded(Middleware) in PhasesOf(job);
  }

  /** A sequential reconcile that completes the phases before that of kind `k` and stops in that one. */
  lemma StopInOrder(job: Job, c0: Cluster, k: Kind, now: Cluster) returns (run: seq<State>)
    requires HttpJob(job) && Rank(k) < PHASES && TaskStops(job, k, c0[k], now[k])
    requires forall i: Kind :: Rank(i) < Rank(k) ==> CompletesAt(job, c0, now, i)
    requires forall i: Kind :: Rank(i) > Rank(k) ==> now[i] == c0[i]
    ensures RunIn(job, c0, true, run) && run[|run| - 1].cluster == now
    ensures Kinded(k) in run[|run| - 1].pcs && run[|run| - 1].pcs[Kinded(k)].Failed?
            && RunningPhases(run[|run| - 1]) == {}
  {
    var j := Rank(k);
    assert KindAt(j) == k;
    run := CompleteFirst(job, c0, true, j, now);
    NextMayBegin(job, c0, true, run, j, Done, now);
    var base := run[|run| - 1];
    run := CanStop(job, c0, true, run, k, now[k]);
    var end := run[|run| - 1];
    forall i: Kind ensures end.cluster[i] == now[i] { assert Rank(i) == j ==> i == k; }
    assert end.cluster.Keys == now.Keys && end.cluster == now;
    assert RunningPhases(end) == {};
  }

  // ---------------------------------------------------------------------------------------------
  // And no others in order

  /** Phases have begun in order. */
  ghost predicate Orderly(s: State) {
    forall p, q :: p in s.pcs && q in s.pcs && !s.pcs[p].Waiting? && Order(q) < Order(p) ==> s.pcs[q].Done?
  }

  lemma StepOrderly(job: Job, s: State, s': State, p: Phase)
    requires Orderly(s) && Step(job, s, s', p) && InTurn(s, s')
    ensures Orderly(s')
  {
    forall x, y | x in s'.pcs && y in s'.pcs && !s'.pcs[x].Waiting? && Order(y) < Order(x) ensures s'.pcs[y].Done? {
      if s.pcs[x].Waiting? { assert ItsTurn(s, x); }
      assert s.pcs[y].Done?;
    }
  }

  lemma {:induction false} RunOrderly(job: Job, c0: Cluster, run: seq<State>, i: nat)
    requires RunIn(job, c0, true, run) && i < |run|
    ensures Orderly(run[i])
  {
    if i > 0 {
      RunOrderly(job, c0, run, i - 1);
      assert Next(job, run[i - 1], run[i - 1 + 1]) && InTurn(run[i - 1], run[i - 1 + 1]);
      var p :| Step(job, run[i - 1], run[i], p);
      StepOrderly(job, run[i - 1], run[i], p);
    }
  }
}
