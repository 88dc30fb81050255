/**
  One reconcile phase: write every desired object of a kind, then collect what is stale
  (internal/controller/apply.go).
 */
module Phases {
  import opened Results
  import opened Objects

  /** The objects of one kind in the target namespace. */
  type Store = map<string, KubeObject>

  predicate HasAllKinds(c: map<Kind, Store>) {
    forall k: Kind :: k in c
  }

  type Cluster = c: map<Kind, Store> | HasAllKinds(c)
    witness map k: Kind | true :: map[]

  type Wanted = map<string, Desired>

  function Get(s: Store, n: string): Option<KubeObject> {
    if n in s then Some(s[n]) else None
  }

  // ---------------------------------------------------------------------------------------------
  // What a phase computes, stated without any order

  /** The store once the names in `done` have been written. */
  function Applied(cfg: MetadataConfig, kind: Kind, want: Wanted, done: set<string>, s: Store): Store {
    map n | n in s.Keys + (done * want.Keys) ::
      if n in done && n in want then Written(cfg, kind, Get(s, n), want[n]) else s[n]
  }

  /** Managed, and no longer desired. */
  predicate IsStale(cfg: MetadataConfig, desired: set<string>, n: string, o: KubeObject) {
    n !in desired && Marked(cfg, o)
  }

  function Stale(cfg: MetadataConfig, desired: set<string>, s: Store): set<string> {
    set n | n in s && IsStale(cfg, desired, n, s[n])
  }

  /** What a List call returns: the objects that carry the managed label. */
  function Listed(cfg: MetadataConfig, s: Store): Store {
    map n | n in s && Selected(cfg, s[n]) :: s[n]
  }

  /** It shows everything that is stale. */
  lemma ListedStale(cfg: MetadataConfig, desired: set<string>, s: Store)
    ensures Stale(cfg, desired, Listed(cfg, s)) == Stale(cfg, desired, s)
  {
  }

  function PhaseResult(cfg: MetadataConfig, kind: Kind, want: Wanted, s: Store): Store {
    var applied := Applied(cfg, kind, want, want.Keys, s);
    applied - Stale(cfg, want.Keys, applied)
  }

  // ---------------------------------------------------------------------------------------------
  // Exactness, framing, idempotence

  lemma AppliedNothing(cfg: MetadataConfig, kind: Kind, want: Wanted, s: Store)
    ensures Applied(cfg, kind, want, {}, s) == s
  {
  }

  /** Writing one more name is one write on the store so far. */
  lemma AppliedOneMore(cfg: MetadataConfig, kind: Kind, want: Wanted, done: set<string>, n: string, s: Store)
    requires n in want && n !in done
    ensures var before := Applied(cfg, kind, want, done, s);
            && Get(before, n) == Get(s, n)
            && Applied(cfg, kind, want, done + {n}, s) == before[n := Written(cfg, kind, Get(before, n), want[n])]
  {
    var before := Applied(cfg, kind, want, done, s);
    var after := Applied(cfg, kind, want, done + {n}, s);
    var updated := before[n := Written(cfg, kind, Get(before, n), want[n])];
    assert after.Keys == updated.Keys;
    forall m | m in after ensures after[m] == updated[m] {
      if m in done && m in want {} else if m == n {} else {}
    }
  }

  /** Stale objects are never desired, so they are the same before and after writing. */
  lemma StaleUnaffected(cfg: MetadataConfig, kind: Kind, want: Wanted, done: set<string>, s: Store)
    ensures Stale(cfg, want.Keys, Applied(cfg, kind, want, done, s)) == Stale(cfg, want.Keys, s)
    ensures Stale(cfg, want.Keys, s) !! want.Keys
  {
  }

  /** What a successful phase leaves: exactly the desired objects among the marked ones. */
  ghost predicate Exact(cfg: MetadataConfig, kind: Kind, want: Wanted, before: Store, after: Store) {
    && (forall n :: n in after && Marked(cfg, after[n]) <==> n in want)
    && (forall n :: n in want ==> n in after && after[n] == Written(cfg, kind, Get(before, n), want[n]))
  }

  /** Foreign objects: neither desired nor marked. They are the same before and after. */
  ghost predicate Framed(cfg: MetadataConfig, want: Wanted, before: Store, after: Store) {
    && (forall n :: n in before && n !in want && !Marked(cfg, before[n]) ==> n in after && after[n] == before[n])
    && (forall n :: n in after && n !in want ==> n in before && after[n] == before[n])
  }

  lemma PhaseExact(cfg: MetadataConfig, kind: Kind, want: Wanted, s: Store)
    requires DistinctKeys(cfg)
    ensures Exact(cfg, kind, want, s, PhaseResult(cfg, kind, want, s))
    ensures Framed(cfg, want, s, PhaseResult(cfg, kind, want, s))
  {
    StaleUnaffected(cfg, kind, want, want.Keys, s);
    var after := PhaseResult(cfg, kind, want, s);
    forall n | n in want
      ensures n in after && Marked(cfg, after[n]) && after[n] == Written(cfg, kind, Get(s, n), want[n])
    {
      WrittenIsMarked(cfg, kind, Get(s, n), want[n]);
    }
  }

  /**
    What a phase takes away, read off the fields of an object: it goes exactly if nothing by its name is
    desired, its label is there and equal, and its annotation is equal, a missing one counting as empty.
    Everything else that is not desired stays as it is.
   */
  lemma DeletedByFields(cfg: MetadataConfig, kind: Kind, want: Wanted, s: Store, n: string)
    requires n in s && n !in want
    ensures var o, after := s[n], PhaseResult(cfg, kind, want, s);
            && (n !in after <==>
                  && cfg.labelKey in o.labels && o.labels[cfg.labelKey] == cfg.labelValue
                  && (if cfg.annoKey in o.annotations then o.annotations[cfg.annoKey] == cfg.annoValue
                      else cfg.annoValue == ""))
            && (n in after ==> after[n] == o)
  {
  }

  /** Exactness and framing leave no other outcome. */
  lemma ExactAndFramedIsResult(cfg: MetadataConfig, kind: Kind, want: Wanted, s: Store, after: Store)
    requires DistinctKeys(cfg)
    requires Exact(cfg, kind, want, s, after) && Framed(cfg, want, s, after)
    ensures after == PhaseResult(cfg, kind, want, s)
  {
    var r := PhaseResult(cfg, kind, want, s);
    assert Exact(cfg, kind, want, s, r) && Framed(cfg, want, s, r) by { PhaseExact(cfg, kind, want, s); }
    forall n ensures (n in after <==> n in r) && (n in after ==> after[n] == r[n]) {
      if n in after { Determined(cfg, kind, want, s, after, r, n); }
      if n in r { Determined(cfg, kind, want, s, r, after, n); }
    }
    assert after.Keys == r.Keys;
  }

  lemma Determined(cfg: MetadataConfig, kind: Kind, want: Wanted, s: Store, a: Store, b: Store, n: string)
    requires Exact(cfg, kind, want, s, a) && Framed(cfg, want, s, a) && Exact(cfg, kind, want, s, b)
             && Framed(cfg, want, s, b)
    requires n in a
    ensures n in b && b[n] == a[n]
  {
    if n !in want { assert a[n] == s[n] && !Marked(cfg, s[n]); }
  }

  /** A second run changes nothing. */
  lemma PhaseIdempotent(cfg: MetadataConfig, kind: Kind, want: Wanted, s: Store)
    requires DistinctKeys(cfg)
    ensures PhaseResult(cfg, kind, want, PhaseResult(cfg, kind, want, s)) == PhaseResult(cfg, kind, want, s)
  {
    var r := PhaseResult(cfg, kind, want, s);
    PhaseExact(cfg, kind, want, s);
    forall n | n in want ensures r[n] == Written(cfg, kind, Get(r, n), want[n]) {
      WrittenTwice(cfg, kind, Get(s, n), want[n]);
    }
    ExactAndFramedIsResult(cfg, kind, want, r, r);
  }

  // ---------------------------------------------------------------------------------------------
  // Safety of every intermediate state

  /**
    Nothing desired and nothing foreign is lost, and nothing undesired appears or changes; a desired
    object is either as it was or as written.
   */
  ghost predicate Safe(cfg: MetadataConfig, kind: Kind, want: Wanted, before: Store, now: Store) {
    && (forall n :: n in before && (n in want || !Marked(cfg, before[n])) ==> n in now)
    && (forall n :: n in now && n !in want ==> n in before && now[n] == before[n])
    && (forall n :: n in now && n in want ==>
      Get(now, n) == Get(before, n) || now[n] == Written(cfg, kind, Get(before, n), want[n]))
  }

  /** Stale objects disappear only once everything desired has been written. */
  ghost predicate DeletesComeLast(cfg: MetadataConfig, kind: Kind, want: Wanted, before: Store, now: Store) {
    (exists n :: n in before && n !in now) ==>
      forall n :: n in want ==> n in now && now[n] == Written(cfg, kind, Get(before, n), want[n])
  }

  ghost predicate SafePoint(cfg: MetadataConfig, kind: Kind, want: Wanted, before: Store, now: Store) {
    Safe(cfg, kind, want, before, now) && DeletesComeLast(cfg, kind, want, before, now)
  }

  /** The two shapes a store passes through: part of the writes, or all of them and part of the deletes. */
  lemma WritingIsSafe(cfg: MetadataConfig, kind: Kind, want: Wanted, done: set<string>, s: Store)
    ensures SafePoint(cfg, kind, want, s, Applied(cfg, kind, want, done, s))
  {
  }

  lemma CollectingIsSafe(cfg: MetadataConfig, kind: Kind, want: Wanted, gone: set<string>, s: Store)
    requires gone <= Stale(cfg, want.Keys, Applied(cfg, kind, want, want.Keys, s))
    ensures SafePoint(cfg, kind, want, s, Applied(cfg, kind, want, want.Keys, s) - gone)
  {
    StaleUnaffected(cfg, kind, want, want.Keys, s);
  }

  /**
    A store a phase can be left with, wherever it stops: some writes, or all of them and some deletes.
    Deletes happen only if the phase is `whole`: every document it was given decoded.
   */
  ghost predicate Reached(cfg: MetadataConfig, kind: Kind, want: Wanted, whole: bool, before: Store, now: Store) {
    || (exists done :: now == Applied(cfg, kind, want, done, before))
    || (whole && exists gone :: gone <= Stale(cfg, want.Keys, Applied(cfg, kind, want, want.Keys, before))
                       && now == Applied(cfg, kind, want, want.Keys, before) - gone)
  }

  lemma ReachedIsSafe(cfg: MetadataConfig, kind: Kind, want: Wanted, whole: bool, before: Store, now: Store)
    requires Reached(cfg, kind, want, whole, before, now)
    ensures SafePoint(cfg, kind, want, before, now)
  {
    if done :| now == Applied(cfg, kind, want, done, before) {
      WritingIsSafe(cfg, kind, want, done, before);
    } else {
      var gone :| gone <= Stale(cfg, want.Keys, Applied(cfg, kind, want, want.Keys, before))
                  && now == Applied(cfg, kind, want, want.Keys, before) - gone;
      CollectingIsSafe(cfg, kind, want, gone, before);
    }
  }

  lemma UntouchedIsReached(cfg: MetadataConfig, kind: Kind, want: Wanted, whole: bool, s: Store)
    ensures Reached(cfg, kind, want, whole, s, s)
  {
    AppliedNothing(cfg, kind, want, s);
  }

  /** A phase that ran to its end. */
  lemma ResultIsReached(cfg: MetadataConfig, kind: Kind, want: Wanted, s: Store)
    ensures Reached(cfg, kind, want, true, s, PhaseResult(cfg, kind, want, s))
  {
  }

  lemma UntouchedIsSafe(cfg: MetadataConfig, kind: Kind, want: Wanted, s: Store)
    ensures SafePoint(cfg, kind, want, s, s)
  {
    AppliedNothing(cfg, kind, want, s);
    WritingIsSafe(cfg, kind, want, {}, s);
  }

  /** The number of phases that write objects of the HTTP section. */
  const PHASES: nat := 4

  /** The place of a kind in the order of the phases; kinds without a phase come after all of them. */
  function Rank(k: Kind): nat {
    match k
    case Middleware => 0
    case IngressRoute => 1
    case ServersTransport => 2
    case TraefikService => 3
    case _ => PHASES
  }

  /** The kind whose phase has place `j`. */
  function KindAt(j: nat): (k: Kind)
    requires j < PHASES
    ensures Rank(k) == j && forall i: Kind :: Rank(i) == j ==> i == k
  {
    if j == 0 then Middleware else if j == 1 then IngressRoute else if j == 2 then ServersTransport else TraefikService
  }

  /** Phases run one after another, each on its own kind. */
  function RunPhases(cfg: MetadataConfig, phases: seq<(Kind, Wanted)>, c: Cluster): Cluster {
    if phases == [] then c
    else RunPhases(cfg, phases[1..], c[phases[0].0 := PhaseResult(cfg, phases[0].0, phases[0].1, c[phases[0].0])])
  }
}
