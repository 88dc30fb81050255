/**
  The grace period and the poll loop together (internal/controller/apply.go, internal/controller/loop.go).

  With a grace period a reconcile writes what is desired and schedules what is stale. The scheduled
  deletions are carried out later, while polls of the same body are skipped.
 */
module GraceRuns {
  import opened Results
  import opened Objects
  import opened Phases
  import opened Convergence
  import Loop = PollLoop
  import Names = Renaming

  /** A scheduled deletion. */
  type Request = (Kind, string)

  /** The cluster and the deletions that are still to come. */
  datatype Held = Held(cluster: Cluster, pending: multiset<Request>)

  function Requests(schedule: Schedule): set<Request> {
    set k, n | k in schedule && n in schedule[k] :: (k, n)
  }

  /** A successful reconcile of `c`; those of its requests for which the queue had room are accepted. */
  ghost predicate Reconciles(env: Env, c: Names.Config, s: Held, s': Held, schedule: Schedule, accepted: set<Request>) {
    && (forall k: Kind :: Rank(k) >= PHASES ==> s'.cluster[k] == s.cluster[k])
    && PostponedBefore(env, c, PHASES, s.cluster, s'.cluster, schedule)
    && schedule.Keys == (set k: Kind | Rank(k) < PHASES)
    && accepted <= Requests(schedule) && s'.pending == s.pending + multiset(accepted)
  }

  /** A scheduled deletion is carried out, or fails and is given up. */
  ghost predicate Deletes(s: Held, s': Held, r: Request) {
    && r in s.pending && s'.pending == s.pending - multiset{r}
    && (s'.cluster == s.cluster || s'.cluster == s.cluster[r.0 := s.cluster[r.0] - {r.1}])
  }

  /** As long as polls are skipped, nothing happens but scheduled deletions. */
  ghost predicate Quiet(run: seq<Held>) {
    run != [] && forall i :: 0 <= i < |run| - 1 ==> QuietStep(run[i], run[i + 1])
  }

  ghost predicate QuietStep(s: Held, s': Held) {
    s' == s || exists r :: Deletes(s, s', r)
  }

  // ---------------------------------------------------------------------------------------------
  // What is wanted stays

  /** An object is there, as writing it would leave it. */
  ghost predicate PresentAt(env: Env, c: Names.Config, k: Kind, n: string, s: Store)
    requires n in WantedOf(env, c, k)
  {
    n in s && Written(env.meta, k, Some(s[n]), WantedOf(env, c, k)[n]) == s[n]
  }

  /** Everything that `c` wants is there. */
  ghost predicate Present(env: Env, c: Names.Config, now: Cluster) {
    forall k: Kind, n :: n in WantedOf(env, c, k) ==> PresentAt(env, c, k, n, now[k])
  }

  /** No deletion is pending for a name that `c` wants. */
  ghost predicate NothingWantedPending(env: Env, c: Names.Config, pending: multiset<Request>) {
    forall r :: r in pending ==> r.1 !in WantedOf(env, c, r.0)
  }

  /** A reconcile leaves everything it wants in place, and its own requests are for other names. */
  lemma ReconcilePresents(env: Env, c: Names.Config, s: Held, s': Held, schedule: Schedule, accepted: set<Request>)
    requires Reconciles(env, c, s, s', schedule, accepted)
    ensures Present(env, c, s'.cluster)
    ensures NothingWantedPending(env, c, s'.pending) <==> NothingWantedPending(env, c, s.pending)
  {
    forall k: Kind, n | n in WantedOf(env, c, k) ensures PresentAt(env, c, k, n, s'.cluster[k]) {
      assert KindPostponed(env, c, k, s.cluster[k], s'.cluster[k], schedule);
      WrittenTwice(env.meta, k, Get(s.cluster[k], n), WantedOf(env, c, k)[n]);
    }
    forall r | r in accepted ensures r.1 !in WantedOf(env, c, r.0) {
      assert KindPostponed(env, c, r.0, s.cluster[r.0], s'.cluster[r.0], schedule);
    }
    forall r ensures r in s'.pending <==> r in s.pending || r in accepted {}
  }

  lemma DeletesKeepPresent(env: Env, c: Names.Config, s: Held, s': Held, r: Request)
    requires Present(env, c, s.cluster) && NothingWantedPending(env, c, s.pending) && Deletes(s, s', r)
    ensures Present(env, c, s'.cluster) && NothingWantedPending(env, c, s'.pending)
  {
    forall k: Kind, n | n in WantedOf(env, c, k) ensures PresentAt(env, c, k, n, s'.cluster[k]) {
      assert PresentAt(env, c, k, n, s.cluster[k]);
    }
  }

  lemma {:induction false} QuietKeepsPresent(env: Env, c: Names.Config, run: seq<Held>, i: nat)
    requires Quiet(run) && i < |run| && Present(env, c, run[0].cluster) && NothingWantedPending(env, c, run[0].pending)
    ensures Present(env, c, run[i].cluster) && NothingWantedPending(env, c, run[i].pending)
  {
    if i > 0 {
      QuietKeepsPresent(env, c, run, i - 1);
      assert QuietStep(run[i - 1], run[i - 1 + 1]);
      if run[i] != run[i - 1] {
        var r :| Deletes(run[i - 1], run[i], r);
        DeletesKeepPresent(env, c, run[i - 1], run[i], r);
      }
    }
  }

  /** The pending deletion of a wanted name takes the object away. */
  lemma WantedIsDeleted(env: Env, c: Names.Config, s: Held, r: Request) returns (s': Held)
    requires r in s.pending && r.1 in WantedOf(env, c, r.0)
    ensures Deletes(s, s', r) && r.1 !in s'.cluster[r.0] && !Present(env, c, s'.cluster)
  {
    s' := Held(s.cluster[r.0 := s.cluster[r.0] - {r.1}], s.pending - multiset{r});
    assert !PresentAt(env, c, r.0, r.1, s'.cluster[r.0]);
  }

  /**
    The exact condition: what the last applied configuration wants stays in place for as long as its
    body is served, whatever is deleted meanwhile, if and only if no deletion of a wanted name is pending.
   */
  lemma WantedStaysExactly(env: Env, c: Names.Config, s: Held)
    requires Present(env, c, s.cluster)
    ensures NothingWantedPending(env, c, s.pending) <==>
              forall run: seq<Held> :: Quiet(run) && run[0] == s ==> Present(env, c, run[|run| - 1].cluster)
  {
    if NothingWantedPending(env, c, s.pending) {
      forall run: seq<Held> | Quiet(run) && run[0] == s ensures Present(env, c, run[|run| - 1].cluster) {
        QuietKeepsPresent(env, c, run, |run| - 1);
      }
    } else {
      var r :| r in s.pending && r.1 in WantedOf(env, c, r.0);
      var s' := WantedIsDeleted(env, c, s, r);
      var run := [s, s'];
      assert QuietStep(run[0], run[1]);
      assert Quiet(run);
    }
  }

  // ---------------------------------------------------------------------------------------------
  // It can be lost

  /** Reconciling with room for every request. */
  ghost function AfterReconcile(env: Env, c: Names.Config, s: Held): Held {
    Held(map k: Kind | true ::
           if Rank(k) < PHASES then Applied(env.meta, k, WantedOf(env, c, k), WantedOf(env, c, k).Keys, s.cluster[k])
             else s.cluster[k],
         s.pending + multiset(Requests(ScheduleOf(env, c, s.cluster))))
  }

  ghost function ScheduleOf(env: Env, c: Names.Config, now: Cluster): Schedule {
    map k: Kind | Rank(k) < PHASES :: Stale(env.meta, WantedOf(env, c, k).Keys, now[k])
  }

  lemma AfterReconcileIs(env: Env, c: Names.Config, s: Held)
    requires DemandOf(env, c).Some?
    ensures var schedule := ScheduleOf(env, c, s.cluster);
            Reconciles(env, c, s, AfterReconcile(env, c, s), schedule, Requests(schedule))
  {
    DemandIsFour(env, c);
    var schedule, s' := ScheduleOf(env, c, s.cluster), AfterReconcile(env, c, s);
    forall k: Kind | Rank(k) < PHASES ensures KindPostponed(env, c, k, s.cluster[k], s'.cluster[k], schedule) {}
    assert schedule.Keys == (set k: Kind | Rank(k) < PHASES);
  }

  /** An object that `a` wants and `b` does not is scheduled for deletion when `b` follows `a`. */
  lemma ScheduledByNext(env: Env, a: Names.Config, b: Names.Config, s: Held, k: Kind, n: string)
    requires DistinctKeys(env.meta) && Rank(k) < PHASES && n in WantedOf(env, a, k) && n !in WantedOf(env, b, k)
    ensures var s2 := AfterReconcile(env, b, AfterReconcile(env, a, s)); (k, n) in s2.pending
  {
    var s1 := AfterReconcile(env, a, s);
    WrittenIsMarked(env.meta, k, Get(s.cluster[k], n), WantedOf(env, a, k)[n]);
    assert n in s1.cluster[k] && Marked(env.meta, s1.cluster[k][n]);
    assert n in ScheduleOf(env, b, s1.cluster)[k];
    assert (k, n) in Requests(ScheduleOf(env, b, s1.cluster));
  }

  /**
    The states of the controller when `a`, `b` and `a` again are applied and the deletion that `b`
    scheduled is carried out.
   */
  datatype Lost = Lost(first: Held, second: Held, third: Held, end: Held)

  /**
    `a`, then `b`, then `a` again within the grace period: the deletion that `b` scheduled takes away what
    `a` has just rewritten, and every further poll of `a` is skipped, so it stays away.
   */
  lemma RestoredObjectIsLost(env: Env, a: string, b: string, s: Held, k: Kind, n: string) returns (x: Lost)
    requires DistinctKeys(env.meta) && Loop.CollisionFree(env.hash) && a != b && Demand(env, a).Some?
             && Demand(env, b).Some?
    requires n in WantedOf(env, SanitizedBody(env, a).value, k) && n !in WantedOf(env, SanitizedBody(env, b).value, k)
    ensures var ca, cb := SanitizedBody(env, a).value, SanitizedBody(env, b).value;
            && x.first == AfterReconcile(env, ca, s) && x.second == AfterReconcile(env, cb, x.first)
            && x.third == AfterReconcile(env, ca, x.second) && Present(env, ca, x.third.cluster)
            && Deletes(x.third, x.end, (k, n)) && n !in x.end.cluster[k]
    ensures forall m: nat :: SkippedAfter(env, a, b, m)
  {
    var ca, cb := SanitizedBody(env, a).value, SanitizedBody(env, b).value;
    var s1 := AfterReconcile(env, ca, s);
    var s2 := AfterReconcile(env, cb, s1);
    var s3 := AfterReconcile(env, ca, s2);
    ScheduledByNext(env, ca, cb, s, k, n);
    AfterReconcileIs(env, ca, s2);
    ReconcilePresents(env, ca, s2, s3, ScheduleOf(env, ca, s2.cluster), Requests(ScheduleOf(env, ca, s2.cluster)));
    assert (k, n) in s3.pending;
    var s4 := WantedIsDeleted(env, ca, s3, (k, n));
    x := Lost(s1, s2, s3, s4);
    forall m: nat ensures SkippedAfter(env, a, b, m) { StillSkipped(env, a, b, m); }
  }

  /** The polls: `a`, `b`, `a`, and then `a` over and over. */
  function Polls(a: string, b: string, m: nat): (es: seq<Loop.Event>)
    ensures |es| == m + 3
  {
    [Poll(a, true), Poll(b, true), Poll(a, true)] + seq(m, _ => Poll(a, true))
  }

  /** After the third, all polls are skipped. */
  ghost predicate SkippedAfter(env: Env, a: string, b: string, m: nat) {
    Loop.ActionAt(env.hash, Polls(a, b, m + 1), m + 3).Skipped?
  }

  lemma {:induction false} MemoryStays(env: Env, a: string, b: string, m: nat)
    requires Loop.CollisionFree(env.hash) && a != b
    ensures Loop.MemoryAt(env.hash, Polls(a, b, m)) == Loop.Memory("", false, env.hash(a), 0)
  {
    var es := Polls(a, b, m);
    if m == 0 {
      assert es[..2] == [Poll(a, true), Poll(b, true)] && es[..2][..1] == [Poll(a, true)] && es[..2][..1][..0] == [];
      assert es[..|es| - 1] == es[..2];
      assert env.hash(a) != env.hash(b);
    } else {
      assert es[..|es| - 1] == Polls(a, b, m - 1);
      MemoryStays(env, a, b, m - 1);
    }
  }

  lemma StillSkipped(env: Env, a: string, b: string, m: nat)
    requires Loop.CollisionFree(env.hash) && a != b
    ensures SkippedAfter(env, a, b, m)
  {
    assert Polls(a, b, m + 1)[..m + 3] == Polls(a, b, m);
    MemoryStays(env, a, b, m);
  }
}
