/**
  Deletion after a grace period: a bounded queue, a pool of workers and a semaphore
  (internal/controller/apply.go, internal/controller/controller.go).

  A step is one channel operation, timer or API call of one goroutine, an advance of the clock, the
  cancellation of the context, or a write to the cluster by anybody else. A collector lists the objects
  of a kind in one step and sends their stale names to the queue in later ones.
 */
module GracePool {
  import opened Objects
  import opened Phases

  /** A request, stamped with the time at which it entered the queue. */
  datatype Request = Request(kind: Kind, name: string, delay: nat, at: nat)

  datatype Worker =
    | Idle
    | Sleeping(req: Request, since: nat)
    | Ready(req: Request)
    | Deleting(req: Request)
    | Exited

  /** What a collector works from: the names desired, the objects listed and when, and the names it has yet to send. */
  datatype Listing = Listing(kind: Kind, desired: set<string>, store: Store, time: nat, todo: set<string>)

  /** The listing from which a request was accepted. */
  datatype Evidence = Evidence(req: Request, listing: nat)

  datatype Deletion = Deletion(req: Request, time: nat)

  datatype Pool = Pool(
    queue: seq<Request>,
    workers: seq<Worker>,
    holders: nat,
    now: nat,
    cancelled: bool,
    cluster: Cluster,
    listings: seq<Listing>,
    // history
    accepted: multiset<Request>,
    finished: multiset<Request>,
    abandoned: multiset<Request>,
    evidence: seq<Evidence>,
    deletions: seq<Deletion>)

  datatype Limits = Limits(cfg: MetadataConfig, gcWorkers: int, queueSize: int)

  /** The number of workers; the semaphore is created with the same number of slots. */
  function Workers(l: Limits): nat { if l.gcWorkers <= 0 then 1 else l.gcWorkers }

  function Capacity(l: Limits): nat { if l.queueSize <= 0 then 256 else l.queueSize }

  function Start(l: Limits, c: Cluster): Pool {
    Pool([], seq(Workers(l), _ => Idle), 0, 0, false, c, [], multiset{}, multiset{}, multiset{}, [], [])
  }

  // ---------------------------------------------------------------------------------------------
  // Steps

  /** A collector lists the objects of a kind. */
  ghost predicate List(l: Limits, s: Pool, s': Pool, g: Listing) {
    && g.store == Listed(l.cfg, s.cluster[g.kind]) && g.time == s.now && g.todo == Stale(l.cfg, g.desired, g.store)
    && s' == s.(listings := s.listings + [g])
  }

  /** The listing once `name` has been dealt with. */
  function Sent(g: Listing, name: string): Listing { g.(todo := g.todo - {name}) }

  /** One of its stale names is sent and the queue has room. */
  ghost predicate Enqueue(l: Limits, s: Pool, s': Pool, e: Evidence) {
    && e.listing < |s.listings| && |s.queue| < Capacity(l)
    && e.req.kind == s.listings[e.listing].kind && e.req.name in s.listings[e.listing].todo && e.req.at == s.now
    && s' == s.(queue := s.queue + [e.req], accepted := s.accepted + multiset{e.req}, evidence := s.evidence + [e],
                listings := s.listings[e.listing := Sent(s.listings[e.listing], e.req.name)])
  }

  /** Or it is given up: the queue stayed full for too long or the context was cancelled. Here it may happen anytime. */
  ghost predicate Drop(s: Pool, s': Pool, j: nat, name: string) {
    && j < |s.listings| && name in s.listings[j].todo
    && s' == s.(listings := s.listings[j := Sent(s.listings[j], name)])
  }

  ghost predicate Take(s: Pool, s': Pool, i: nat) {
    && i < |s.workers| && s.workers[i].Idle? && s.queue != []
    && s' == s.(queue := s.queue[1..], workers := s.workers[i := Sleeping(s.queue[0], s.now)])
  }

  ghost predicate Wake(s: Pool, s': Pool, i: nat) {
    && i < |s.workers| && s.workers[i].Sleeping? && s.now >= s.workers[i].since + s.workers[i].req.delay
    && s' == s.(workers := s.workers[i := Ready(s.workers[i].req)])
  }

  /** A cancelled context ends a sleep without a deletion. */
  ghost predicate Abandon(s: Pool, s': Pool, i: nat) {
    && s.cancelled && i < |s.workers| && s.workers[i].Sleeping? && s.workers[i].req.delay > 0
    && s' == s.(workers := s.workers[i := Idle], abandoned := s.abandoned + multiset{s.workers[i].req})
  }

  ghost predicate Acquire(l: Limits, s: Pool, s': Pool, i: nat) {
    && i < |s.workers| && s.workers[i].Ready? && s.holders < Workers(l)
    && s' == s.(workers := s.workers[i := Deleting(s.workers[i].req)], holders := s.holders + 1)
  }

  /** The delete call succeeds or fails, then the slot is released. */
  ghost predicate Finish(s: Pool, s': Pool, i: nat) {
    && i < |s.workers| && s.workers[i].Deleting? && s.holders > 0
    && var r := s.workers[i].req;
       && (s'.cluster == s.cluster || s'.cluster == s.cluster[r.kind := s.cluster[r.kind] - {r.name}])
       && s' == s.(workers := s.workers[i := Idle], holders := s.holders - 1, cluster := s'.cluster,
                   finished := s.finished + multiset{r}, deletions := s.deletions + [Deletion(r, s.now)])
  }

  ghost predicate Exit(s: Pool, s': Pool, i: nat) {
    && s.cancelled && i < |s.workers| && s.workers[i].Idle?
    && s' == s.(workers := s.workers[i := Exited])
  }

  /** The clock advances, the context is cancelled, or somebody else writes to the cluster. */
  ghost predicate Outside(s: Pool, s': Pool) {
    && s'.now >= s.now && (s.cancelled ==> s'.cancelled)
    && s' == s.(now := s'.now, cancelled := s'.cancelled, cluster := s'.cluster)
  }

  ghost predicate WorkerStep(l: Limits, s: Pool, s': Pool, i: nat) {
    Take(s, s', i) || Wake(s, s', i) || Abandon(s, s', i) || Acquire(l, s, s', i) || Finish(s, s', i) || Exit(s, s', i)
  }

  ghost predicate Next(l: Limits, s: Pool, s': Pool) {
    || (exists g :: List(l, s, s', g)) || (exists e :: Enqueue(l, s, s', e)) || (exists j, name :: Drop(s, s', j, name))
    || (exists i: nat :: WorkerStep(l, s, s', i)) || Outside(s, s')
  }

  ghost predicate IsRun(l: Limits, c: Cluster, run: seq<Pool>) {
    && run != [] && run[0] == Start(l, c)
    && forall i :: 0 <= i < |run| - 1 ==> Next(l, run[i], run[i + 1])
  }

  // ---------------------------------------------------------------------------------------------
  // Counting over the workers

  function Held(w: Worker): multiset<Request> {
    if w.Sleeping? || w.Ready? || w.Deleting? then multiset{w.req} else multiset{}
  }

  function InFlight(ws: seq<Worker>): multiset<Request> {
    if ws == [] then multiset{} else Held(ws[0]) + InFlight(ws[1..])
  }

  function DeletingCount(ws: seq<Worker>): nat {
    if ws == [] then 0 else (if ws[0].Deleting? then 1 else 0) + DeletingCount(ws[1..])
  }

  function Others(ws: seq<Worker>, i: nat): seq<Worker>
    requires i < |ws|
  {
    ws[..i] + ws[i + 1..]
  }

  lemma {:induction false} InFlightAt(ws: seq<Worker>, i: nat)
    requires i < |ws|
    ensures InFlight(ws) == Held(ws[i]) + InFlight(Others(ws, i))
  {
    if i == 0 {
      assert Others(ws, i) == ws[1..];
    } else {
      InFlightAt(ws[1..], i - 1);
      var others := Others(ws, i);
      assert others[1..] == Others(ws[1..], i - 1) && others[0] == ws[0];
      Exchange(Held(ws[0]), Held(ws[i]), InFlight(others[1..]));
      assert InFlight(others) == Held(ws[0]) + InFlight(others[1..]);
    }
  }

  lemma Exchange(a: multiset<Request>, b: multiset<Request>, c: multiset<Request>)
    ensures a + (b + c) == b + (a + c)
  {
  }

  /** Changing one worker changes what is in flight by what that worker held and now holds. */
  lemma InFlightUpdate(ws: seq<Worker>, i: nat, w: Worker)
    requires i < |ws|
    ensures InFlight(ws) == Held(ws[i]) + InFlight(Others(ws, i))
    ensures InFlight(ws[i := w]) == Held(w) + InFlight(Others(ws, i))
  {
    InFlightAt(ws, i);
    InFlightAt(ws[i := w], i);
    assert Others(ws[i := w], i) == Others(ws, i);
  }

  lemma {:induction false} DeletingUpdate(ws: seq<Worker>, i: nat, w: Worker)
    requires i < |ws|
    ensures DeletingCount(ws[i := w]) + (if ws[i].Deleting? then 1 else 0) == DeletingCount(ws) + if w.Deleting? then 1
            else 0
    ensures !ws[i].Deleting? ==> DeletingCount(ws) < |ws|
    ensures DeletingCount(ws) <= |ws|
  {
    if i == 0 {
      assert ws[i := w][1..] == ws[1..];
      if |ws| > 1 { DeletingUpdate(ws[1..], 0, ws[1]); }
    } else {
      assert ws[i := w][1..] == ws[1..][i - 1 := w];
      DeletingUpdate(ws[1..], i - 1, w);
    }
  }

  lemma {:induction false} AllIdle(n: nat)
    ensures InFlight(seq(n, _ => Idle)) == multiset{} && DeletingCount(seq(n, _ => Idle)) == 0
  {
    if n > 0 {
      assert seq(n, _ => Idle)[1..] == seq(n - 1, _ => Idle);
      AllIdle(n - 1);
    }
  }

  // ---------------------------------------------------------------------------------------------
  // The invariant

  function DeletedRequests(ds: seq<Deletion>): multiset<Request> {
    if ds == [] then multiset{} else DeletedRequests(ds[..|ds| - 1]) + multiset{ds[|ds| - 1].req}
  }

  /** A request waits no less than its delay, counted from when it entered the queue. */
  ghost predicate OnTime(s: Pool, w: Worker) {
    match w
    case Sleeping(r, since) => r.at <= since <= s.now
    case Ready(r) => s.now >= r.at + r.delay
    case Deleting(r) => s.now >= r.at + r.delay
    case _ => true
  }

  /** The request is for a name that its listing, taken no later, shows as managed and not desired. */
  ghost predicate Backs(l: Limits, s: Pool, e: Evidence) {
    && e.listing < |s.listings|
    && var g := s.listings[e.listing];
       && g.kind == e.req.kind && g.time <= e.req.at && e.req.name in Stale(l.cfg, g.desired, g.store)
         && e.req.name !in g.todo
  }

  ghost predicate Justified(s: Pool, r: Request) {
    exists j :: 0 <= j < |s.evidence| && s.evidence[j].req == r
  }

  /** A listing is what the cluster held when it was taken, and only stale names are sent from it. */
  ghost predicate ListingsSound(l: Limits, s: Pool) {
    forall j :: 0 <= j < |s.listings| ==>
      s.listings[j].time <= s.now && s.listings[j].todo <= Stale(l.cfg, s.listings[j].desired, s.listings[j].store)
  }

  /** No name is accepted twice from one listing. */
  ghost predicate SentOnce(s: Pool) {
    forall i, j :: 0 <= i < j < |s.evidence| && s.evidence[i].listing == s.evidence[j].listing ==>
      s.evidence[i].req.name != s.evidence[j].req.name
  }

  ghost predicate Bounds(l: Limits, s: Pool) {
    && |s.queue| <= Capacity(l)
    && |s.workers| == Workers(l)
    && s.holders == DeletingCount(s.workers)
  }

  ghost predicate Conserved(s: Pool) {
    && s.accepted == multiset(s.queue) + InFlight(s.workers) + s.finished + s.abandoned
    && DeletedRequests(s.deletions) == s.finished
  }

  ghost predicate Timely(s: Pool) {
    && (forall i :: 0 <= i < |s.queue| ==> s.queue[i].at <= s.now)
    && (forall i :: 0 <= i < |s.workers| ==> OnTime(s, s.workers[i]))
    && (forall i :: 0 <= i < |s.deletions| ==> s.deletions[i].req.at + s.deletions[i].req.delay <= s.deletions[i].time)
  }

  ghost predicate AllJustified(l: Limits, s: Pool) {
    && ListingsSound(l, s) && SentOnce(s)
    && (forall i :: 0 <= i < |s.evidence| ==> Backs(l, s, s.evidence[i]))
    && (forall r :: r in s.accepted ==> Justified(s, r))
  }

  /** Workers leave and give requests up only when the context is cancelled, and only requests that must wait. */
  ghost predicate Present(s: Pool) {
    && (!s.cancelled ==> s.abandoned == multiset{} && forall i :: 0 <= i < |s.workers| ==> !s.workers[i].Exited?)
    && forall r :: r in s.abandoned ==> r.delay > 0
  }

  ghost predicate Inv(l: Limits, s: Pool) {
    Bounds(l, s) && Conserved(s) && Timely(s) && AllJustified(l, s) && Present(s)
  }

  lemma StartInv(l: Limits, c: Cluster)
    ensures Inv(l, Start(l, c))
  {
    AllIdle(Workers(l));
  }

  // Bounds

  lemma WorkerBounds(l: Limits, s: Pool, s': Pool, i: nat)
    requires Bounds(l, s) && WorkerStep(l, s, s', i)
    ensures Bounds(l, s')
  {
    assert s'.workers == s.workers[i := s'.workers[i]] && |s'.queue| <= |s.queue|;
    DeletingUpdate(s.workers, i, s'.workers[i]);
  }

  lemma StepBounds(l: Limits, s: Pool, s': Pool)
    requires Bounds(l, s) && Next(l, s, s')
    ensures Bounds(l, s')
  {
    if i: nat :| WorkerStep(l, s, s', i) {
      WorkerBounds(l, s, s', i);
    }
  }

  // Conservation

  lemma EnqueueConserves(l: Limits, s: Pool, s': Pool, e: Evidence)
    requires Conserved(s) && Enqueue(l, s, s', e)
    ensures Conserved(s')
  {
    var q, f := multiset(s.queue), InFlight(s.workers);
    assert multiset(s'.queue) == q + multiset{e.req};
    assert q + f + s.finished + s.abandoned + multiset{e.req} == (q + multiset{e.req}) + f + s.finished + s.abandoned;
  }

  lemma MultisetHead(q: seq<Request>)
    requires q != []
    ensures multiset(q) == multiset{q[0]} + multiset(q[1..])
  {
    assert q == [q[0]] + q[1..];
  }

  lemma MoveToFlight(r: Request, q: multiset<Request>, rest: multiset<Request>, fin: multiset<Request>,
                     ab: multiset<Request>)
    ensures (multiset{r} + q) + (multiset{} + rest) + fin + ab == q + (multiset{r} + rest) + fin + ab
  {
  }

  lemma TakeConserves(s: Pool, s': Pool, i: nat)
    requires Conserved(s) && Take(s, s', i)
    ensures Conserved(s')
  {
    InFlightUpdate(s.workers, i, s'.workers[i]);
    MultisetHead(s.queue);
    MoveToFlight(s.queue[0], multiset(s'.queue), InFlight(Others(s.workers, i)), s.finished, s.abandoned);
  }

  lemma AbandonConserves(s: Pool, s': Pool, i: nat)
    requires Conserved(s) && Abandon(s, s', i)
    ensures Conserved(s')
  {
    var q, r, rest := multiset(s.queue), s.workers[i].req, InFlight(Others(s.workers, i));
    InFlightUpdate(s.workers, i, Idle);
    assert q + (multiset{r} + rest) + s.finished + s.abandoned ==
      q + (multiset{} + rest) + s.finished + (s.abandoned + multiset{r});
  }

  lemma FinishConserves(s: Pool, s': Pool, i: nat)
    requires Conserved(s) && Finish(s, s', i)
    ensures Conserved(s')
  {
    var q, r, rest := multiset(s.queue), s.workers[i].req, InFlight(Others(s.workers, i));
    InFlightUpdate(s.workers, i, Idle);
    assert q + (multiset{r} + rest) + s.finished + s.abandoned ==
      q + (multiset{} + rest) + (s.finished + multiset{r}) + s.abandoned;
    assert s'.deletions[..|s'.deletions| - 1] == s.deletions;
  }

  /** A worker that moves on with the same request changes no count. */
  lemma QuietConserves(s: Pool, s': Pool, i: nat, w: Worker)
    requires Conserved(s) && i < |s.workers| && s' == s.(workers := s.workers[i := w], holders := s'.holders)
    requires Held(w) == Held(s.workers[i])
    ensures Conserved(s')
  {
    InFlightUpdate(s.workers, i, w);
    assert InFlight(s'.workers) == InFlight(s.workers);
  }

  lemma WakeConserves(s: Pool, s': Pool, i: nat)
    requires Conserved(s) && Wake(s, s', i)
    ensures Conserved(s')
  {
    QuietConserves(s, s', i, Ready(s.workers[i].req));
  }

  lemma AcquireConserves(l: Limits, s: Pool, s': Pool, i: nat)
    requires Conserved(s) && Acquire(l, s, s', i)
    ensures Conserved(s')
  {
    QuietConserves(s, s', i, Deleting(s.workers[i].req));
  }

  lemma ExitConserves(s: Pool, s': Pool, i: nat)
    requires Conserved(s) && Exit(s, s', i)
    ensures Conserved(s')
  {
    QuietConserves(s, s', i, Exited);
  }

  lemma StepConserves(l: Limits, s: Pool, s': Pool)
    requires Conserved(s) && Next(l, s, s')
    ensures Conserved(s')
  {
    if e :| Enqueue(l, s, s', e) {
      EnqueueConserves(l, s, s', e);
    } else if i: nat :| WorkerStep(l, s, s', i) {
      if Take(s, s', i) { TakeConserves(s, s', i); }
      else if Abandon(s, s', i) { AbandonConserves(s, s', i); }
      else if Finish(s, s', i) { FinishConserves(s, s', i); }
      else if Wake(s, s', i) { WakeConserves(s, s', i); }
      else if Acquire(l, s, s', i) { AcquireConserves(l, s, s', i); }
      else { ExitConserves(s, s', i); }
    }
  }

  // Timing

  lemma WorkerTimely(l: Limits, s: Pool, s': Pool, i: nat)
    requires Timely(s) && WorkerStep(l, s, s', i)
    ensures Timely(s')
  {
    assert s'.now == s.now && s'.workers == s.workers[i := s'.workers[i]];
    assert OnTime(s, s.workers[i]);
    assert OnTime(s', s'.workers[i]);
    forall j | 0 <= j < |s'.workers| ensures OnTime(s', s'.workers[j]) { assert OnTime(s, s.workers[j]); }
    assert s'.queue == s.queue || s'.queue == s.queue[1..];
  }

  lemma StepTimely(l: Limits, s: Pool, s': Pool)
    requires Timely(s) && Next(l, s, s')
    ensures Timely(s')
  {
    if i: nat :| WorkerStep(l, s, s', i) {
      WorkerTimely(l, s, s', i);
    } else {
      assert s'.now >= s.now && s'.workers == s.workers && s'.deletions == s.deletions;
      forall i | 0 <= i < |s'.workers| ensures OnTime(s', s'.workers[i]) { assert OnTime(s, s.workers[i]); }
      if e :| Enqueue(l, s, s', e) {
        assert forall i :: 0 <= i < |s.queue| ==> s'.queue[i] == s.queue[i];
      }
    }
  }

  // Evidence

  /** Dealing with a name takes nothing from the evidence. */
  lemma SentKeepsBacks(l: Limits, s: Pool, s': Pool, j: nat, name: string, e: Evidence)
    requires j < |s.listings| && s'.listings == s.listings[j := Sent(s.listings[j], name)] && Backs(l, s, e)
    ensures Backs(l, s', e)
  {
    if e.listing == j { assert s'.listings[j] == Sent(s.listings[j], name); }
  }

  lemma ListJustified(l: Limits, s: Pool, s': Pool, g: Listing)
    requires AllJustified(l, s) && List(l, s, s', g)
    ensures AllJustified(l, s')
  {
    forall i | 0 <= i < |s'.evidence| ensures Backs(l, s', s'.evidence[i]) {
      assert Backs(l, s, s.evidence[i]);
      assert s'.listings[s.evidence[i].listing] == s.listings[s.evidence[i].listing];
    }
    forall r | r in s'.accepted ensures Justified(s', r) { assert Justified(s, r); }
  }

  lemma DropJustified(l: Limits, s: Pool, s': Pool, j: nat, name: string)
    requires AllJustified(l, s) && Drop(s, s', j, name)
    ensures AllJustified(l, s')
  {
    forall i | 0 <= i < |s'.evidence| ensures Backs(l, s', s'.evidence[i]) {
      SentKeepsBacks(l, s, s', j, name, s.evidence[i]);
    }
    forall r | r in s'.accepted ensures Justified(s', r) { assert Justified(s, r); }
  }

  lemma EnqueueJustified(l: Limits, s: Pool, s': Pool, e: Evidence)
    requires AllJustified(l, s) && Enqueue(l, s, s', e)
    ensures AllJustified(l, s')
  {
    forall i | 0 <= i < |s'.evidence| ensures Backs(l, s', s'.evidence[i]) {
      if i < |s.evidence| { SentKeepsBacks(l, s, s', e.listing, e.req.name, s.evidence[i]); }
    }
    forall i | 0 <= i < |s.evidence| && s.evidence[i].listing == e.listing
      ensures s.evidence[i].req.name != e.req.name
    {
      assert Backs(l, s, s.evidence[i]);
    }
    forall r | r in s'.accepted ensures Justified(s', r) { AcceptedJustified(s, s', e, r); }
  }

  lemma AcceptedJustified(s: Pool, s': Pool, e: Evidence, r: Request)
    requires (forall q :: q in s.accepted ==> Justified(s, q)) && s'.accepted == s.accepted + multiset{e.req}
             && s'.evidence == s.evidence + [e]
    requires r in s'.accepted
    ensures Justified(s', r)
  {
    if r in s.accepted {
      var j :| 0 <= j < |s.evidence| && s.evidence[j].req == r;
      assert s'.evidence[j] == s.evidence[j];
    } else {
      assert s'.evidence[|s.evidence|] == e;
    }
  }

  lemma QuietJustified(l: Limits, s: Pool, s': Pool)
    requires AllJustified(l, s) && s'.accepted == s.accepted && s'.evidence == s.evidence && s'.listings == s.listings
             && s'.now >= s.now
    ensures AllJustified(l, s')
  {
    forall i | 0 <= i < |s'.evidence| ensures Backs(l, s', s'.evidence[i]) { assert Backs(l, s, s.evidence[i]); }
    forall r | r in s'.accepted ensures Justified(s', r) { assert Justified(s, r); }
  }

  lemma WorkerKeepsHistory(l: Limits, s: Pool, s': Pool, i: nat)
    requires WorkerStep(l, s, s', i)
    ensures s'.accepted == s.accepted && s'.evidence == s.evidence && s'.listings == s.listings && s'.now == s.now
    ensures s'.cancelled == s.cancelled && i < |s.workers| == |s'.workers| && (s'.workers[i].Exited? ==> s.cancelled)
    ensures forall j :: 0 <= j < |s.workers| && j != i ==> s'.workers[j] == s.workers[j]
  {
  }

  lemma StepJustified(l: Limits, s: Pool, s': Pool)
    requires AllJustified(l, s) && Next(l, s, s')
    ensures AllJustified(l, s')
  {
    if g :| List(l, s, s', g) {
      ListJustified(l, s, s', g);
    } else if e :| Enqueue(l, s, s', e) {
      EnqueueJustified(l, s, s', e);
    } else if j, name :| Drop(s, s', j, name) {
      DropJustified(l, s, s', j, name);
    } else if i: nat :| WorkerStep(l, s, s', i) {
      WorkerKeepsHistory(l, s, s', i);
      QuietJustified(l, s, s');
    } else {
      QuietJustified(l, s, s');
    }
  }

  lemma WorkerPresent(l: Limits, s: Pool, s': Pool, i: nat)
    requires Present(s) && WorkerStep(l, s, s', i)
    ensures Present(s')
  {
    WorkerKeepsHistory(l, s, s', i);
  }

  lemma StepPresent(l: Limits, s: Pool, s': Pool)
    requires Present(s) && Next(l, s, s')
    ensures Present(s')
  {
    if i: nat :| WorkerStep(l, s, s', i) { WorkerPresent(l, s, s', i); }
  }

  lemma StepInv(l: Limits, s: Pool, s': Pool)
    requires Inv(l, s) && Next(l, s, s')
    ensures Inv(l, s')
  {
    StepBounds(l, s, s');
    StepConserves(l, s, s');
    StepTimely(l, s, s');
    StepJustified(l, s, s');
    StepPresent(l, s, s');
  }

  lemma {:induction false} RunInv(l: Limits, c: Cluster, run: seq<Pool>, i: nat)
    requires IsRun(l, c, run) && i < |run|
    ensures Inv(l, run[i])
  {
    if i == 0 {
      StartInv(l, c);
    } else {
      RunInv(l, c, run, i - 1);
      assert Next(l, run[i - 1], run[i - 1 + 1]);
      StepInv(l, run[i - 1], run[i]);
    }
  }

  // ---------------------------------------------------------------------------------------------
  // The theorems

  /** In every reachable state the queue is bounded and the semaphore counts exactly the deleting workers. */
  lemma Bounded(l: Limits, c: Cluster, run: seq<Pool>, i: nat)
    requires IsRun(l, c, run) && i < |run|
    ensures |run[i].queue| <= if l.queueSize <= 0 then 256 else l.queueSize
    ensures |run[i].workers| == if l.gcWorkers <= 0 then 1 else l.gcWorkers
    ensures run[i].holders == DeletingCount(run[i].workers) <= |run[i].workers|
  {
    RunInv(l, c, run, i);
    DeletingUpdate(run[i].workers, 0, run[i].workers[0]);
  }

  /** A worker that wants the semaphore gets it at once: there are as many slots as workers. */
  lemma AcquireNeverBlocks(l: Limits, c: Cluster, run: seq<Pool>, i: nat, w: nat)
    requires IsRun(l, c, run) && i < |run| && w < |run[i].workers| && run[i].workers[w].Ready?
    ensures exists s' :: Acquire(l, run[i], s', w)
  {
    RunInv(l, c, run, i);
    var s := run[i];
    DeletingUpdate(s.workers, w, s.workers[w]);
    var s' := s.(workers := s.workers[w := Deleting(s.workers[w].req)], holders := s.holders + 1);
    assert Acquire(l, s, s', w);
  }

  /** A name still to be sent is accepted as long as the queue has room, that is, exactly up to its capacity. */
  lemma SendsWhileThereIsRoom(l: Limits, c: Cluster, run: seq<Pool>, i: nat, j: nat, name: string, delay: nat)
    requires IsRun(l, c, run) && i < |run| && j < |run[i].listings| && name in run[i].listings[j].todo
    ensures (exists s', e :: Enqueue(l, run[i], s', e) && e == Evidence(
               Request(run[i].listings[j].kind, name, delay, run[i].now), j))
            <==> |run[i].queue| < if l.queueSize <= 0 then 256 else l.queueSize
  {
    var s := run[i];
    var e := Evidence(Request(s.listings[j].kind, name, delay, s.now), j);
    var s' := s.(queue := s.queue + [e.req], accepted := s.accepted + multiset{e.req}, evidence := s.evidence + [e],
                 listings := s.listings[j := Sent(s.listings[j], name)]);
    if |s.queue| < Capacity(l) { assert Enqueue(l, s, s', e); }
  }

  /** No request is lost or duplicated, and none is deleted more often than it was accepted. */
  lemma Conservation(l: Limits, c: Cluster, run: seq<Pool>, i: nat)
    requires IsRun(l, c, run) && i < |run|
    ensures var s := run[i]; s.accepted == multiset(s.queue) + InFlight(s.workers) + s.finished + s.abandoned
    ensures DeletedRequests(run[i].deletions) == run[i].finished <= run[i].accepted
    ensures forall r :: r in run[i].abandoned ==> run[i].cancelled && r.delay > 0
  {
    RunInv(l, c, run, i);
  }

  /** A step changes no listing but for the names still to be sent, and a new one is taken from the cluster as it is. */
  ghost predicate Grows(l: Limits, s: Pool, s': Pool) {
    && |s.listings| <= |s'.listings| <= |s.listings| + 1
    && (forall j :: 0 <= j < |s.listings| ==> s'.listings[j] == s.listings[j].(todo := s'.listings[j].todo))
    && (|s'.listings| > |s.listings| ==> TakenFrom(l, s'.listings[|s.listings|], s))
  }

  ghost predicate TakenFrom(l: Limits, g: Listing, s: Pool) {
    g.store == Listed(l.cfg, s.cluster[g.kind]) && g.time == s.now
  }

  lemma ListingsGrow(l: Limits, s: Pool, s': Pool)
    requires Next(l, s, s')
    ensures Grows(l, s, s')
  {
    if i: nat :| WorkerStep(l, s, s', i) { WorkerKeepsHistory(l, s, s', i); }
  }

  lemma {:induction false} TakenBefore(l: Limits, run: seq<Pool>, i: nat, j: nat) returns (m: nat)
    requires run != [] && run[0].listings == [] && forall k :: 0 <= k < |run| - 1 ==> Grows(l, run[k], run[k + 1])
    requires i < |run| && j < |run[i].listings|
    ensures m <= i && TakenFrom(l, run[i].listings[j], run[m])
  {
    assert Grows(l, run[i - 1], run[i - 1 + 1]);
    if j < |run[i - 1].listings| {
      m := TakenBefore(l, run, i - 1, j);
    } else {
      m := i - 1;
    }
  }

  /** A listing is what the cluster held at some earlier point of the run. */
  lemma ListingIsReal(l: Limits, c: Cluster, run: seq<Pool>, i: nat, j: nat) returns (m: nat)
    requires IsRun(l, c, run) && i < |run| && j < |run[i].listings|
    ensures m <= i && TakenFrom(l, run[i].listings[j], run[m])
  {
    forall k | 0 <= k < |run| - 1 ensures Grows(l, run[k], run[k + 1]) { ListingsGrow(l, run[k], run[k + 1]); }
    m := TakenBefore(l, run, i, j);
  }

  /** The step that accepted a request. */
  lemma {:induction false} AcceptedAt(l: Limits, run: seq<Pool>, i: nat, e: nat) returns (a: nat)
    requires run != [] && run[0].evidence == [] && forall k :: 0 <= k < |run| - 1 ==> Accepts(l, run[k], run[k + 1])
    requires i < |run| && e < |run[i].evidence|
    ensures a < i && Enqueue(l, run[a], run[a + 1], run[i].evidence[e])
  {
    assert Accepts(l, run[i - 1], run[i - 1 + 1]);
    if e < |run[i - 1].evidence| {
      a := AcceptedAt(l, run, i - 1, e);
    } else {
      a := i - 1;
    }
  }

  /** Evidence is only added, one piece at a time, by accepting a request. */
  ghost predicate Accepts(l: Limits, s: Pool, s': Pool) {
    && s.evidence <= s'.evidence && |s'.evidence| <= |s.evidence| + 1
    && (|s'.evidence| > |s.evidence| ==> Enqueue(l, s, s', s'.evidence[|s.evidence|]))
  }

  lemma StepAccepts(l: Limits, s: Pool, s': Pool)
    requires Next(l, s, s')
    ensures Accepts(l, s, s')
  {
    if i: nat :| WorkerStep(l, s, s', i) { WorkerKeepsHistory(l, s, s', i); }
  }

  lemma AcceptedInRun(l: Limits, c: Cluster, run: seq<Pool>, i: nat, e: nat) returns (a: nat)
    requires IsRun(l, c, run) && i < |run| && e < |run[i].evidence|
    ensures a < i && Enqueue(l, run[a], run[a + 1], run[i].evidence[e])
  {
    forall k | 0 <= k < |run| - 1 ensures Accepts(l, run[k], run[k + 1]) { StepAccepts(l, run[k], run[k + 1]); }
    a := AcceptedAt(l, run, i, e);
  }

  /** What is accepted was stale in the cluster of an earlier state, which was listed. */
  lemma AcceptedWasStale(l: Limits, c: Cluster, run: seq<Pool>, a: nat, e: Evidence)
    returns (m: nat, desired: set<string>)
    requires IsRun(l, c, run) && a < |run| - 1 && Enqueue(l, run[a], run[a + 1], e)
    ensures m <= a && run[m].now <= e.req.at && e.req.name in Stale(l.cfg, desired, run[m].cluster[e.req.kind])
  {
    RunInv(l, c, run, a);
    m := ListingIsReal(l, c, run, a, e.listing);
    desired := run[a].listings[e.listing].desired;
    ListedStale(l.cfg, desired, run[m].cluster[e.req.kind]);
  }

  /**
    Every deletion happens after the grace period. Its request was accepted in step `a` of the run, and
    its name was managed and not desired in the cluster of a state `m` no later than that, which was
    listed. A listing gives rise to at most one request for a name.
   */
  lemma DeletionsAreDueAndJustified(l: Limits, c: Cluster, run: seq<Pool>, i: nat, d: nat)
    returns (m: nat, a: nat, e: Evidence, desired: set<string>)
    requires IsRun(l, c, run) && i < |run| && d < |run[i].deletions|
    ensures var del := run[i].deletions[d];
            && del.time >= del.req.at + del.req.delay
            && m <= a < i && e.req == del.req && Enqueue(l, run[a], run[a + 1], e)
            && run[m].now <= del.req.at && del.req.name in Stale(l.cfg, desired, run[m].cluster[del.req.kind])
    ensures SentOnce(run[i])
  {
    RunInv(l, c, run, i);
    DeletedIsCounted(run[i].deletions, d);
    var r := run[i].deletions[d].req;
    assert r in run[i].accepted;
    var j :| 0 <= j < |run[i].evidence| && run[i].evidence[j].req == r;
    e := run[i].evidence[j];
    a := AcceptedInRun(l, c, run, i, j);
    m, desired := AcceptedWasStale(l, c, run, a, e);
  }

  lemma {:induction false} DeletedIsCounted(ds: seq<Deletion>, d: nat)
    requires d < |ds|
    ensures ds[d].req in DeletedRequests(ds)
  {
    if d < |ds| - 1 { DeletedIsCounted(ds[..|ds| - 1], d); }
  }

  /**
    The name is not checked again when the delay is over: for every object that is marked and stale at
    first, there is a run in which the cluster becomes `rewanted` meanwhile, for instance because the
    name is desired again and was written anew, and the object is deleted all the same.
   */
  lemma DeletesWhatIsWantedAgain(l: Limits, kind: Kind, name: string, delay: nat, c: Cluster, rewanted: Cluster)
    returns (run: seq<Pool>)
    requires name in c[kind] && Marked(l.cfg, c[kind][name])
    ensures IsRun(l, c, run) && |run| == 9
    ensures run[3].cluster == rewanted
    ensures run[8].cluster == rewanted[kind := rewanted[kind] - {name}]
  {
    var r := Request(kind, name, delay, 0);
    run := AcceptFirst(l, kind, name, delay, c);
    var s := run[2].(cluster := rewanted);
    assert Outside(run[2], s);
    RunExtends(l, c, run, s);
    run := WakeFirst(l, c, run + [s], r);
    run := DeleteFirst(l, c, run, r);
  }

  /** Worker 0 takes the only request and sleeps until it is due. */
  lemma WakeFirst(l: Limits, c: Cluster, run: seq<Pool>, r: Request) returns (longer: seq<Pool>)
    requires IsRun(l, c, run) && |run[|run| - 1].workers| > 0
    requires var s := run[|run| - 1]; s.queue == [r] && s.workers[0].Idle? && s.now == 0 && s.holders == 0
    ensures IsRun(l, c, longer) && |longer| == |run| + 3 && run <= longer
    ensures var s := longer[|longer| - 1];
            |s.workers| > 0 && s.workers[0] == Ready(r) && s.holders == 0 && s.cluster == run[|run| - 1].cluster
  {
    var s0 := run[|run| - 1];
    var s1 := s0.(queue := s0.queue[1..], workers := s0.workers[0 := Sleeping(r, 0)]);
    var s2 := s1.(now := r.delay);
    var s3 := s2.(workers := s2.workers[0 := Ready(r)]);
    assert Next(l, s0, s1) by { assert Take(s0, s1, 0); assert WorkerStep(l, s0, s1, 0); }
    assert Next(l, s1, s2) by { assert Outside(s1, s2); }
    assert Next(l, s2, s3) by { assert Wake(s2, s3, 0); assert WorkerStep(l, s2, s3, 0); }
    RunExtends(l, c, run, s1);
    RunExtends(l, c, run + [s1], s2);
    RunExtends(l, c, run + [s1] + [s2], s3);
    longer := run + [s1] + [s2] + [s3];
  }

  /** It acquires the semaphore and deletes. */
  lemma DeleteFirst(l: Limits, c: Cluster, run: seq<Pool>, r: Request) returns (longer: seq<Pool>)
    requires IsRun(l, c, run) && |run[|run| - 1].workers| > 0
    requires var s := run[|run| - 1]; s.workers[0] == Ready(r) && s.holders == 0
    ensures IsRun(l, c, longer) && |longer| == |run| + 2 && run <= longer
    ensures longer[|longer| - 1].cluster == run[|run| - 1].cluster[r.kind := run[|run| - 1].cluster[r.kind] - {r.name}]
  {
    var s0 := run[|run| - 1];
    var s1 := s0.(workers := s0.workers[0 := Deleting(r)], holders := 1);
    var s2 := s1.(workers := s1.workers[0 := Idle], holders := 0,
      cluster := s1.cluster[r.kind := s1.cluster[r.kind] - {r.name}],
                  finished := s1.finished + multiset{r}, deletions := s1.deletions + [Deletion(r, s1.now)]);
    assert Next(l, s0, s1) by { assert Acquire(l, s0, s1, 0); assert WorkerStep(l, s0, s1, 0); }
    assert Next(l, s1, s2) by { assert Finish(s1, s2, 0); assert WorkerStep(l, s1, s2, 0); }
    RunExtends(l, c, run, s1);
    RunExtends(l, c, run + [s1], s2);
    longer := run + [s1] + [s2];
  }

  function FirstListing(l: Limits, kind: Kind, c: Cluster): Listing {
    var store := Listed(l.cfg, c[kind]);
    Listing(kind, {}, store, 0, Stale(l.cfg, {}, store))
  }

  /** The first two steps: a listing, and the request for one of its names. */
  lemma AcceptFirst(l: Limits, kind: Kind, name: string, delay: nat, c: Cluster) returns (run: seq<Pool>)
    requires name in c[kind] && Marked(l.cfg, c[kind][name])
    ensures IsRun(l, c, run) && |run| == 3
    ensures var s := run[2];
            s.queue == [Request(kind, name, delay, 0)] && |s.workers| > 0 && s.workers[0].Idle? && s.now == 0
              && s.holders == 0
  {
    var r, g := Request(kind, name, delay, 0), FirstListing(l, kind, c);
    var s0 := Start(l, c);
    var s1 := s0.(listings := s0.listings + [g]);
    assert Next(l, s0, s1) by { assert List(l, s0, s1, g); }
    var s2 := s1.(queue := s1.queue + [r], accepted := s1.accepted + multiset{r},
      evidence := s1.evidence + [Evidence(r, 0)],
                  listings := s1.listings[0 := Sent(g, name)]);
    assert Next(l, s1, s2) by { assert Enqueue(l, s1, s2, Evidence(r, 0)); }
    RunExtends(l, c, [s0], s1);
    RunExtends(l, c, [s0] + [s1], s2);
    run := [s0] + [s1] + [s2];
  }

  // ---------------------------------------------------------------------------------------------
  // Progress

  function WorkerWork(w: Worker): nat {
    match w case Sleeping(_, _) => 3 case Ready(_) => 2 case Deleting(_) => 1 case _ => 0
  }

  function WorkersWork(ws: seq<Worker>): nat {
    if ws == [] then 0 else WorkerWork(ws[0]) + WorkersWork(ws[1..])
  }

  /** Four steps per queued request, fewer for one in flight. */
  function Work(s: Pool): nat { 4 * |s.queue| + WorkersWork(s.workers) }

  lemma {:induction false} WorkUpdate(ws: seq<Worker>, i: nat, w: Worker)
    requires i < |ws|
    ensures WorkersWork(ws[i := w]) + WorkerWork(ws[i]) == WorkersWork(ws) + WorkerWork(w)
  {
    if i == 0 {
      assert ws[i := w][1..] == ws[1..];
    } else {
      assert ws[i := w][1..] == ws[1..][i - 1 := w];
      WorkUpdate(ws[1..], i - 1, w);
    }
  }

  lemma {:induction false} AllIdleWork(ws: seq<Worker>)
    requires forall i :: 0 <= i < |ws| ==> ws[i].Idle?
    ensures WorkersWork(ws) == 0 && InFlight(ws) == multiset{}
  {
    if ws != [] { AllIdleWork(ws[1..]); }
  }

  /** A worker that holds a request can go on with it, a sleeping one once its delay is over. */
  lemma BusyProceeds(l: Limits, s: Pool, i: nat) returns (mid: Pool, next: Pool)
    requires Inv(l, s) && i < |s.workers| && (s.workers[i].Sleeping? || s.workers[i].Ready? || s.workers[i].Deleting?)
    ensures Outside(s, mid) && mid == s.(now := mid.now) && WorkerStep(l, mid, next, i)
    ensures Work(next) < Work(s) && next.cancelled == s.cancelled
  {
    var w := s.workers[i];
    DeletingUpdate(s.workers, i, w);
    mid := if w.Sleeping? && s.now < w.since + w.req.delay then s.(now := w.since + w.req.delay) else s;
    match w {
      case Sleeping(r, since) =>
        next := mid.(workers := mid.workers[i := Ready(r)]);
        assert Wake(mid, next, i);
      case Ready(r) =>
        next := mid.(workers := mid.workers[i := Deleting(r)], holders := mid.holders + 1);
        assert Acquire(l, mid, next, i);
      case Deleting(r) =>
        assert s.holders > 0 by { DeletingUpdate(s.workers, i, Idle); }
        next := mid.(workers := mid.workers[i := Idle], holders := mid.holders - 1,
                     finished := mid.finished + multiset{r}, deletions := mid.deletions + [Deletion(r, mid.now)]);
        assert Finish(mid, next, i);
    }
    WorkUpdate(s.workers, i, next.workers[i]);
  }

  /**
    Without cancellation, while a request is queued or in flight some worker can take a step, after the
    clock has advanced if need be, and that step leaves less to do.
   */
  lemma Progress(l: Limits, s: Pool) returns (mid: Pool, next: Pool, i: nat)
    requires Inv(l, s) && !s.cancelled && (s.queue != [] || InFlight(s.workers) != multiset{})
    ensures Outside(s, mid) && mid == s.(now := mid.now) && WorkerStep(l, mid, next, i)
    ensures Work(next) < Work(s) && !next.cancelled
  {
    if j :| 0 <= j < |s.workers| && !s.workers[j].Idle? {
      i := j;
      mid, next := BusyProceeds(l, s, i);
    } else {
      AllIdleWork(s.workers);
      i, mid := 0, s;
      next := s.(queue := s.queue[1..], workers := s.workers[0 := Sleeping(s.queue[0], s.now)]);
      assert Take(mid, next, 0);
      WorkUpdate(s.workers, 0, next.workers[0]);
    }
  }

  /** So every run can be continued, without any new request, until each accepted one is finished. */
  lemma {:induction false} Drains(l: Limits, c: Cluster, run: seq<Pool>) returns (longer: seq<Pool>)
    requires IsRun(l, c, run) && !run[|run| - 1].cancelled
    ensures IsRun(l, c, longer) && run <= longer && Drained(longer[|longer| - 1], run[|run| - 1].accepted)
    decreases Work(run[|run| - 1])
  {
    var s := run[|run| - 1];
    if s.queue == [] && InFlight(s.workers) == multiset{} {
      longer := run;
      IdleIsDrained(l, c, run);
    } else {
      var next := GoesOn(l, c, run);
      longer := Drains(l, c, next);
    }
  }

  /** Nothing is queued or in flight, and each accepted request is finished. */
  ghost predicate Drained(s: Pool, accepted: multiset<Request>) {
    s.queue == [] && InFlight(s.workers) == multiset{} && s.accepted == s.finished == accepted
  }

  lemma IdleIsDrained(l: Limits, c: Cluster, run: seq<Pool>)
    requires IsRun(l, c, run) && run[|run| - 1].queue == [] && InFlight(run[|run| - 1].workers) == multiset{}
    requires !run[|run| - 1].cancelled
    ensures Drained(run[|run| - 1], run[|run| - 1].accepted)
  {
    RunInv(l, c, run, |run| - 1);
  }

  lemma GoesOn(l: Limits, c: Cluster, run: seq<Pool>) returns (longer: seq<Pool>)
    requires IsRun(l, c, run) && !run[|run| - 1].cancelled
    requires run[|run| - 1].queue != [] || InFlight(run[|run| - 1].workers) != multiset{}
    ensures IsRun(l, c, longer) && run <= longer && !longer[|longer| - 1].cancelled
    ensures longer[|longer| - 1].accepted == run[|run| - 1].accepted
            && Work(longer[|longer| - 1]) < Work(run[|run| - 1])
  {
    RunInv(l, c, run, |run| - 1);
    var mid, next, i := Progress(l, run[|run| - 1]);
    WorkerKeepsHistory(l, mid, next, i);
    assert Next(l, run[|run| - 1], mid) && Next(l, mid, next);
    RunExtends(l, c, run, mid);
    RunExtends(l, c, run + [mid], next);
    longer := run + [mid] + [next];
  }

  lemma RunExtends(l: Limits, c: Cluster, run: seq<Pool>, next: Pool)
    requires IsRun(l, c, run) && Next(l, run[|run| - 1], next)
    ensures IsRun(l, c, run + [next])
  {
    var longer := run + [next];
    forall i | 0 <= i < |longer| - 1 ensures Next(l, longer[i], longer[i + 1]) {
      if i < |run| - 1 { assert Next(l, run[i], run[i + 1]); }
    }
  }
}
