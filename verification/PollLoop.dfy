/**
  The poll loop: change detection, signatures and the error counter
  (internal/controller/loop.go, internal/controller/change_detection.go).

  The digest of a body is a parameter; where it matters it is required to be free of collisions. The
  server is an adversary that answers as it likes within sections 8.8.1, 13.1.2 and 15.4.5 of RFC 9110.
 */
module PollLoop {
  import opened Results

  type Digest = string -> string

  /** The digest is never empty and never maps two bodies to one value. */
  ghost predicate CollisionFree(hash: Digest) {
    && (forall b :: hash(b) != "")
    && (forall a, b :: hash(a) == hash(b) ==> a == b)
  }

  datatype Response = FetchError | Response(status: int, etag: string, body: string)

  /** What the loop remembers from one iteration to the next. */
  datatype Memory = Memory(etag: string, etagIsHeader: bool, hash: string, errors: nat)

  const FRESH := Memory("", false, "", 0)

  // ---------------------------------------------------------------------------------------------
  // Change detection

  predicate IsWeak(etag: string) {
    "W/" <= etag
  }

  predicate DecideChangeWithETag(etag: string, curHash: string, m: Memory) {
    var weak := IsWeak(etag);
    if !weak && m.etagIsHeader && etag == m.etag then false
    else if weak then !(m.hash != "" && curHash == m.hash)
    else !(m.hash != "" && curHash == m.hash)
  }

  predicate DecideChange(hash: Digest, etag: string, body: string, m: Memory) {
    if etag != "" then DecideChangeWithETag(etag, hash(body), m)
    else !(m.hash != "" && hash(body) == m.hash)
  }

  datatype Decision = Rejected | Unchanged | Changed(body: string, etag: string)

  const NO_CONFIG := "{}"

  function Decide(hash: Digest, status: int, etag: string, body: string, m: Memory): Decision {
    if status == 304 then Unchanged
    else if status == 401 || status == 403 || status >= 500 || (status != 404 && status != 200) then Rejected
    else
      var (b, e) := if status == 404 then (NO_CONFIG, "") else (body, etag);
      if DecideChange(hash, e, b, m) then Changed(b, e) else Unchanged
  }

  function IfNoneMatch(m: Memory): string {
    if m.etagIsHeader && m.etag != "" then m.etag else ""
  }

  // ---------------------------------------------------------------------------------------------
  // One iteration

  datatype Action = FetchFailed | StatusFailed | Skipped | ApplyFailed(body: string) | Applied(body: string)

  /** What an iteration does, given the answer of the server and whether parsing and applying succeed. */
  function ActionOf(hash: Digest, m: Memory, r: Response, applies: bool): Action {
    if r.FetchError? then FetchFailed
    else
      match Decide(hash, r.status, r.etag, r.body, m)
      case Rejected => StatusFailed
      case Unchanged => Skipped
      case Changed(b, _) => if applies then Applied(b) else ApplyFailed(b)
  }

  function MemoryAfter(hash: Digest, m: Memory, r: Response, applies: bool): Memory {
    if r.FetchError? then m.(errors := m.errors + 1)
    else
      match Decide(hash, r.status, r.etag, r.body, m)
      case Rejected => m.(errors := m.errors + 1)
      case Unchanged => m.(errors := 0)
      case Changed(b, e) => if applies then Memory(e, e != "", hash(b), 0) else m.(errors := 1)
  }

  /** The loop body, updating its four variables in place. */
  class Loop {
    var lastETag: string
    var lastETagIsHeader: bool
    var lastHash: string
    var consecutiveErrors: nat

    constructor ()
      ensures Remembers() == FRESH
    {
      lastETag, lastETagIsHeader, lastHash, consecutiveErrors := "", false, "", 0;
    }

    function Remembers(): Memory
      reads this
    {
      Memory(lastETag, lastETagIsHeader, lastHash, consecutiveErrors)
    }

    /** `applies` is the verdict of parsing and applying the body, should it come to that. */
    method Iterate(hash: Digest, r: Response, applies: bool) returns (a: Action)
      modifies this
      ensures a == ActionOf(hash, old(Remembers()), r, applies)
      ensures Remembers() == MemoryAfter(hash, old(Remembers()), r, applies)
    {
      if r.FetchError? {
        consecutiveErrors := consecutiveErrors + 1;
        return FetchFailed;
      }
      var d := Decide(hash, r.status, r.etag, r.body, Remembers());
      if d.Rejected? {
        consecutiveErrors := consecutiveErrors + 1;
        return StatusFailed;
      }
      if d.Unchanged? {
        consecutiveErrors := 0;
        return Skipped;
      }
      consecutiveErrors := 0;
      if !applies {
        consecutiveErrors := consecutiveErrors + 1;
        return ApplyFailed(d.body);
      }
      if d.etag != "" {
        lastETag, lastETagIsHeader := d.etag, true;
      } else {
        lastETag, lastETagIsHeader := "", false;
      }
      lastHash := hash(d.body);
      return Applied(d.body);
    }
  }

  // ---------------------------------------------------------------------------------------------
  // Runs

  /** The representation the server would serve at this moment. */
  datatype Representation = Representation(etag: string, body: string)

  datatype Event = Event(rep: Representation, answer: Response, applies: bool)

  function MemoryAt(hash: Digest, es: seq<Event>): Memory {
    if es == [] then FRESH
    else
      var e := es[|es| - 1];
      MemoryAfter(hash, MemoryAt(hash, es[..|es| - 1]), e.answer, e.applies)
  }

  /** What happens at event i of the run. */
  function ActionAt(hash: Digest, es: seq<Event>, i: nat): Action
    requires i < |es|
  {
    ActionOf(hash, MemoryAt(hash, es[..i]), es[i].answer, es[i].applies)
  }

  /** The body last applied successfully, if any. */
  function LastApplied(hash: Digest, es: seq<Event>): Option<string> {
    if es == [] then None
    else
      var n := |es| - 1;
      var a := ActionAt(hash, es, n);
      if a.Applied? then Some(a.body) else LastApplied(hash, es[..n])
  }

  /** A weak validator, by section 8.8.3 of RFC 9110: its first two characters are W and a slash. */
  predicate WeakValidator(etag: string) {
    |etag| >= 2 && etag[0] == 'W' && etag[1] == '/'
  }

  function Opaque(etag: string): string {
    if WeakValidator(etag) then etag[2..] else etag
  }

  /** The weak comparison of section 8.8.3.2 of RFC 9110, used for If-None-Match. */
  predicate WeakMatch(a: string, b: string) {
    Opaque(a) == Opaque(b)
  }

  /** A 200 carries the current representation; a 304 needs a condition that the current one meets. */
  ghost predicate Honest(sent: string, e: Event) {
    e.answer.Response? ==>
      && (e.answer.status == 200 ==> e.answer.etag == e.rep.etag && e.answer.body == e.rep.body)
      && (e.answer.status == 304 ==> sent != "" && WeakMatch(sent, e.rep.etag))
  }

  type Equivalence = (string, string) -> bool

  /** Over the whole run, one strong validator means one body, and matching validators mean equivalent bodies. */
  ghost predicate ValidatorsHold(es: seq<Event>, equiv: Equivalence) {
    forall i, j ::
      0 <= i < |es| && 0 <= j < |es| && es[i].rep.etag != "" && WeakMatch(es[i].rep.etag, es[j].rep.etag) ==>
      && equiv(es[i].rep.body, es[j].rep.body)
      && (es[i].rep.etag == es[j].rep.etag && !WeakValidator(es[i].rep.etag) ==> es[i].rep.body == es[j].rep.body)
  }

  ghost predicate IsRun(hash: Digest, es: seq<Event>, equiv: Equivalence) {
    && (forall i :: 0 <= i < |es| ==> Honest(IfNoneMatch(MemoryAt(hash, es[..i])), es[i]))
    && ValidatorsHold(es, equiv)
  }

  /** Event `j` of the run was applied from a 200 that carried the remembered entity tag. */
  ghost predicate AppliedFrom(es: seq<Event>, j: nat, m: Memory, body: string) {
    j < |es| && es[j].answer.Response? && es[j].answer.status == 200 && es[j].rep.etag == m.etag
      && es[j].rep.body == body
  }

  /** The memory is the signature of the last applied body. */
  ghost predicate Signs(hash: Digest, es: seq<Event>, m: Memory) {
    && m.etagIsHeader == (m.etag != "")
    && match LastApplied(hash, es)
       case None => m.etag == "" && m.hash == ""
       case Some(b) => m.hash == hash(b) && (m.etag != "" ==> exists j :: AppliedFrom(es, j, m, b))
  }

  lemma RunPrefix(hash: Digest, es: seq<Event>, equiv: Equivalence, n: nat)
    requires IsRun(hash, es, equiv) && n <= |es|
    ensures IsRun(hash, es[..n], equiv)
  {
    var p := es[..n];
    forall i | 0 <= i < n ensures Honest(IfNoneMatch(MemoryAt(hash, p[..i])), p[i]) {
      assert p[..i] == es[..i];
    }
  }

  lemma {:induction false} MemorySigns(hash: Digest, es: seq<Event>, equiv: Equivalence)
    requires IsRun(hash, es, equiv)
    ensures Signs(hash, es, MemoryAt(hash, es))
  {
    if es != [] {
      var n := |es| - 1;
      var p, e := es[..n], es[n];
      RunPrefix(hash, es, equiv, n);
      MemorySigns(hash, p, equiv);
      var m, m' := MemoryAt(hash, p), MemoryAt(hash, es);
      if ActionAt(hash, es, n).Applied? {
        assert m'.etag != "" ==> AppliedFrom(es, n, m', ActionAt(hash, es, n).body);
      } else if LastApplied(hash, p).Some? && m.etag != "" {
        var j :| AppliedFrom(p, j, m, LastApplied(hash, p).value);
        assert AppliedFrom(es, j, m', LastApplied(hash, es).value);
      }
    }
  }

  /** The body a 200 or a 404 stands for. */
  function Served(r: Response): Option<string> {
    if r.FetchError? then None
    else if r.status == 200 then Some(r.body)
    else if r.status == 404 then Some(NO_CONFIG)
    else None
  }

  /** A remembered entity tag came with the last applied body. */
  lemma RememberedTag(hash: Digest, es: seq<Event>, equiv: Equivalence, n: nat) returns (j: nat)
    requires IsRun(hash, es, equiv) && n <= |es| && MemoryAt(hash, es[..n]).etag != ""
    ensures LastApplied(hash, es[..n]).Some?
    ensures j < n && es[j].rep == Representation(MemoryAt(hash, es[..n]).etag, LastApplied(hash, es[..n]).value)
    ensures IfNoneMatch(MemoryAt(hash, es[..n])) == es[j].rep.etag
  {
    RunPrefix(hash, es, equiv, n);
    MemorySigns(hash, es[..n], equiv);
    var m, b := MemoryAt(hash, es[..n]), LastApplied(hash, es[..n]).value;
    j :| AppliedFrom(es[..n], j, m, b);
  }

  lemma MatchingTags(es: seq<Event>, equiv: Equivalence, i: nat, j: nat)
    requires ValidatorsHold(es, equiv) && i < |es| && j < |es|
    requires es[i].rep.etag != "" && WeakMatch(es[i].rep.etag, es[j].rep.etag)
    ensures equiv(es[i].rep.body, es[j].rep.body)
    ensures es[i].rep.etag == es[j].rep.etag && !WeakValidator(es[i].rep.etag) ==> es[i].rep.body == es[j].rep.body
  {
  }

  /** The table of section 8.8.3.2 of RFC 9110: weak or not, two tags match exactly if the rest is the same. */
  lemma WeakComparison(x: string, y: string)
    requires !("W/" <= x) && !("W/" <= y)
    ensures WeakMatch(x, y) <==> x == y
    ensures WeakMatch("W/" + x, y) <==> x == y
    ensures WeakMatch(x, "W/" + y) <==> x == y
    ensures WeakMatch("W/" + x, "W/" + y) <==> x == y
  {
    assert ("W/" + x)[2..] == x && ("W/" + y)[2..] == y;
  }

  /** The prefix that the loop looks for is that of a weak validator. */
  lemma IsWeakExactly(etag: string)
    ensures IsWeak(etag) <==> WeakValidator(etag)
  {
    if WeakValidator(etag) { assert etag[..2] == "W/"; }
  }

  /** Under an unchanged weak tag another body is never skipped, while under an unchanged strong one it is. */
  lemma WeakTagsAreNotTrusted(hash: Digest, x: string, a: string, b: string, errors: nat, applies: bool)
    requires CollisionFree(hash) && a != b
    ensures !ActionOf(hash, Memory("W/" + x, true, hash(a), errors), Response(200, "W/" + x, b), applies).Skipped?
    ensures x != "" && !(|x| >= 2 && x[0] == 'W' && x[1] == '/') ==>
              ActionOf(hash, Memory(x, true, hash(a), errors), Response(200, x, b), applies).Skipped?
  {
    IsWeakExactly("W/" + x);
    IsWeakExactly(x);
  }

  /** A memory that signs `last` skips exactly the answers that carry `last`. */
  lemma DecisionIsExact(hash: Digest, m: Memory, r: Response, applies: bool, last: Option<string>)
    requires CollisionFree(hash) && Served(r).Some?
    requires m.hash == if last.Some? then hash(last.value) else ""
    requires r.status == 200 && m.etagIsHeader && r.etag == m.etag && r.etag != "" && !WeakValidator(r.etag) ==>
               last == Some(r.body)
    ensures ActionOf(hash, m, r, applies).Skipped? <==> last == Served(r)
  {
    var b := Served(r).value;
    IsWeakExactly(r.etag);
    assert hash(b) != "";
    assert last.Some? && hash(b) == hash(last.value) ==> last == Some(b);
  }

  /**
    Change detection is exact: an answer that carries a body is skipped if and only if that body is
    the one last applied. So nothing is skipped before the first success, and a body whose apply
    failed is retried whenever it is served again, unless it is the last applied body.
   */
  lemma SkipsExactlyTheLastBody(hash: Digest, es: seq<Event>, equiv: Equivalence, n: nat)
    requires CollisionFree(hash) && IsRun(hash, es, equiv) && n < |es|
    requires Served(es[n].answer).Some?
    ensures ActionAt(hash, es, n).Skipped? <==> LastApplied(hash, es[..n]) == Served(es[n].answer)
  {
    var m, r, last := MemoryAt(hash, es[..n]), es[n].answer, LastApplied(hash, es[..n]);
    RunPrefix(hash, es, equiv, n);
    MemorySigns(hash, es[..n], equiv);
    if r.status == 200 && r.etag == m.etag && r.etag != "" {
      var j := RememberedTag(hash, es, equiv, n);
      assert Honest(IfNoneMatch(m), es[n]);
      MatchingTags(es, equiv, j, n);
    }
    DecisionIsExact(hash, m, r, es[n].applies, last);
  }

  /** A 304 is skipped, and then the current representation is equivalent to the last applied body. */
  lemma NotModifiedMeansEquivalent(hash: Digest, es: seq<Event>, equiv: Equivalence, n: nat)
    requires IsRun(hash, es, equiv) && n < |es|
    requires es[n].answer.Response? && es[n].answer.status == 304
    ensures ActionAt(hash, es, n).Skipped?
    ensures LastApplied(hash, es[..n]).Some? && equiv(LastApplied(hash, es[..n]).value, es[n].rep.body)
  {
    assert Honest(IfNoneMatch(MemoryAt(hash, es[..n])), es[n]);
    var j := RememberedTag(hash, es, equiv, n);
    MatchingTags(es, equiv, j, n);
  }

  /** The body that a skipped poll stands for: the last applied one, or an equivalent of it. */
  lemma SkippedIsLastApplied(hash: Digest, es: seq<Event>, equiv: Equivalence, n: nat)
    requires CollisionFree(hash) && IsRun(hash, es, equiv) && n < |es| && ActionAt(hash, es, n).Skipped?
    ensures LastApplied(hash, es[..n]).Some?
    ensures Served(es[n].answer).Some? ==> Served(es[n].answer) == LastApplied(hash, es[..n])
    ensures Served(es[n].answer).None? ==> equiv(LastApplied(hash, es[..n]).value, es[n].rep.body)
  {
    if Served(es[n].answer).Some? {
      SkipsExactlyTheLastBody(hash, es, equiv, n);
    } else {
      NotModifiedMeansEquivalent(hash, es, equiv, n);
    }
  }

  /**
    A poll that is skipped teaches the loop no new tag: it goes on sending the tag of the last applied
    body. So the tag it sends next is the tag just served if and only if that was the remembered one.
   */
  lemma SkippedTagIsNotAdopted(hash: Digest, es: seq<Event>, equiv: Equivalence, n: nat)
    requires IsRun(hash, es, equiv) && n < |es| && ActionAt(hash, es, n).Skipped?
    ensures IfNoneMatch(MemoryAt(hash, es[..n + 1])) == IfNoneMatch(MemoryAt(hash, es[..n]))
    ensures es[n].answer.status == 200 ==>
              (IfNoneMatch(MemoryAt(hash, es[..n + 1])) == es[n].answer.etag <==>
                MemoryAt(hash, es[..n]).etag == es[n].answer.etag)
  {
    var p := es[..n + 1];
    assert p[..|p| - 1] == es[..n];
    RunPrefix(hash, es, equiv, n);
    MemorySigns(hash, es[..n], equiv);
  }

  /** A run in which the served tag is not the one sent next: the server changes the tag of an unchanged body. */
  lemma TagOfUnchangedBodyIsLost(hash: Digest, body: string, old': string, new': string) returns (es: seq<Event>)
    requires CollisionFree(hash) && old' != "" && new' != "" && Opaque(old') != Opaque(new')
    ensures IsRun(hash, es, (x, y) => x == y) && |es| == 2 && es[1].answer == Response(200, new', body)
    ensures ActionAt(hash, es, 1).Skipped? && IfNoneMatch(MemoryAt(hash, es)) == old'
  {
    es := [Event(Representation(old', body), Response(200, old', body), true),
      Event(Representation(new', body), Response(200, new', body), true)];
    assert es[..0] == [] && es[..1] == [es[0]] && es[..1][..0] == [];
    assert MemoryAt(hash, []) == FRESH;
    assert MemoryAt(hash, es[..1]) == Memory(old', true, hash(body), 0);
    assert es[..|es| - 1] == es[..1];
  }

  /** A 404 stands for the empty document, a 200 for its body. */
  lemma ServedExactly(r: Response, b: string)
    ensures Served(r) == Some(b) <==>
              r.Response? && ((r.status == 200 && b == r.body) || (r.status == 404 && b == "{}"))
  {
  }

  /** Every status but 200, 304 and 404 counts as a failure, and those three never do. */
  lemma RejectedStatuses(hash: Digest, m: Memory, r: Response, applies: bool)
    ensures ActionOf(hash, m, r, applies).StatusFailed? <==>
              r.Response? && r.status != 200 && r.status != 304 && r.status != 404
    ensures ActionOf(hash, m, r, applies).Applied? || ActionOf(hash, m, r, applies).ApplyFailed? ==>
              Some(ActionOf(hash, m, r, applies).body) == Served(r)
                && (ActionOf(hash, m, r, applies).Applied? <==> applies)
  {
  }

  // ---------------------------------------------------------------------------------------------
  // The error counter

  predicate BadFetch(a: Action) { a.FetchFailed? || a.StatusFailed? }

  /** Failed fetches only add to the counter. */
  lemma {:induction false} BadFetchesCount(hash: Digest, es: seq<Event>, g: nat)
    requires g <= |es|
    requires forall i :: g <= i < |es| ==> BadFetch(ActionAt(hash, es, i))
    ensures MemoryAt(hash, es).errors == MemoryAt(hash, es[..g]).errors + (|es| - g)
  {
    if g == |es| {
      assert es[..g] == es;
    } else {
      var p := es[..|es| - 1];
      forall i | g <= i < |p| ensures BadFetch(ActionAt(hash, p, i)) {
        assert p[..i] == es[..i] && p[i] == es[i];
        assert BadFetch(ActionAt(hash, es, i));
      }
      BadFetchesCount(hash, p, g);
      assert p[..g] == es[..g];
      assert BadFetch(ActionAt(hash, es, |es| - 1));
    }
  }

  /**
    At every point of every run the counter is the number of failed fetches since the last good one,
    `g`, plus one if what was fetched then failed to parse or apply.
   */
  lemma ErrorCounter(hash: Digest, es: seq<Event>, g: nat)
    requires g < |es| && !BadFetch(ActionAt(hash, es, g))
    requires forall i :: g < i < |es| ==> BadFetch(ActionAt(hash, es, i))
    ensures MemoryAt(hash, es).errors == (|es| - 1 - g) + if ActionAt(hash, es, g).ApplyFailed? then 1 else 0
  {
    BadFetchesCount(hash, es, g + 1);
    GoodFetchCount(hash, es, g);
  }

  lemma GoodFetchCount(hash: Digest, es: seq<Event>, g: nat)
    requires g < |es| && !BadFetch(ActionAt(hash, es, g))
    ensures MemoryAt(hash, es[..g + 1]).errors == if ActionAt(hash, es, g).ApplyFailed? then 1 else 0
  {
    var p := es[..g + 1];
    assert p[..|p| - 1] == es[..g];
    assert MemoryAt(hash, p) == MemoryAfter(hash, MemoryAt(hash, es[..g]), es[g].answer, es[g].applies);
  }

  /** Before any good fetch it is simply the number of polls. */
  lemma ErrorCounterBeforeGoodFetch(hash: Digest, es: seq<Event>)
    requires forall i :: 0 <= i < |es| ==> BadFetch(ActionAt(hash, es, i))
    ensures MemoryAt(hash, es).errors == |es|
  {
    BadFetchesCount(hash, es, 0);
    assert es[..0] == [];
  }

  /** So as long as fetching works, failing to apply never raises the counter above one. */
  lemma ApplyFailuresDoNotAccumulate(hash: Digest, es: seq<Event>)
    requires es != [] && !BadFetch(ActionAt(hash, es, |es| - 1))
    ensures MemoryAt(hash, es).errors <= 1
  {
    ErrorCounter(hash, es, |es| - 1);
  }
}
