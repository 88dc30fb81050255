/**
  Redaction of logged documents (internal/observability/logging/redact.go).

  Lower-casing a key is a library function, hence a parameter.
 */
module Redaction {
  import opened JsonValues
  import opened Text

  type Lower = string -> string

  const SENSITIVE := ["auth", "pass", "secret", "token", "key"]
  const REDACTED := Str("***redacted***")

  /** A key is sensitive when its lower-case form contains one of the substrings. */
  predicate Sensitive(lower: Lower, key: string) {
    exists j: nat :: j < |SENSITIVE| && Contains(lower(key), SENSITIVE[j])
  }

  method ContainsSensitive(lower: Lower, key: string) returns (b: bool)
    ensures b == Sensitive(lower, key)
  {
    var lk := lower(key);
    for j := 0 to |SENSITIVE|
      invariant forall i: nat :: i < j ==> !Contains(lk, SENSITIVE[i])
    {
      if Contains(lk, SENSITIVE[j]) { return true; }
    }
    b := false;
  }

  function Redact(lower: Lower, v: Json): Json
    decreases v
  {
    match v
    case Obj(m) => Obj(map k | k in m :: if Sensitive(lower, k) then REDACTED else Redact(lower, m[k]))
    case Arr(xs) => Arr(seq(|xs|, i requires 0 <= i < |xs| => Redact(lower, xs[i])))
    case _ => v
  }

  /** The recursive walk, overwriting list elements and map entries one at a time. */
  method RedactAny(lower: Lower, v: Json) returns (r: Json)
    ensures r == Redact(lower, v)
    decreases v
  {
    match v
    case Obj(m) =>
      var out, rest := m, m.Keys;
      while rest != {}
        invariant rest <= m.Keys && out.Keys == m.Keys
        invariant forall k :: k in rest ==> out[k] == m[k]
        invariant forall k :: k in m && k !in rest ==>
                    out[k] == if Sensitive(lower, k) then REDACTED else Redact(lower, m[k])
        decreases rest
      {
        var k :| k in rest;
        var sensitive := ContainsSensitive(lower, k);
        if sensitive {
          out := out[k := REDACTED];
        } else {
          var x := RedactAny(lower, m[k]);
          out := out[k := x];
        }
        rest := rest - {k};
      }
      assert out == Redact(lower, v).m;
      r := Obj(out);
    case Arr(xs) =>
      var out := xs;
      for i := 0 to |xs|
        invariant |out| == |xs|
        invariant forall j :: 0 <= j < i ==> out[j] == Redact(lower, xs[j])
        invariant forall j :: i <= j < |xs| ==> out[j] == xs[j]
      {
        var x := RedactAny(lower, xs[i]);
        out := out[i := x];
      }
      assert out == Redact(lower, v).xs;
      r := Arr(out);
    case _ => r := v;
  }

  // ---------------------------------------------------------------------------------------------

  /** The keys whose values are hidden, spelled out. */
  lemma SensitiveExactly(lower: Lower, key: string)
    ensures Sensitive(lower, key) <==>
              || Contains(lower(key), "auth") || Contains(lower(key), "pass") || Contains(lower(key), "secret")
              || Contains(lower(key), "token") || Contains(lower(key), "key")
  {
    assert SENSITIVE[0] == "auth" && SENSITIVE[1] == "pass" && SENSITIVE[2] == "secret";
    assert SENSITIVE[3] == "token" && SENSITIVE[4] == "key";
  }

  /** So a key with one of these parts in it, wherever, has its value replaced, and only then. */
  lemma ReplacedExactly(lower: Lower, m: Object, k: string, before: string, part: string, after: string)
    requires k in m && lower(k) == before + part + after
    ensures part == "auth" || part == "pass" || part == "secret" || part == "token" || part == "key" ==>
              Redact(lower, Obj(m)).m[k] == Str("***redacted***")
    ensures !(Contains(lower(k), "auth") || Contains(lower(k), "pass") || Contains(lower(k), "secret")
              || Contains(lower(k), "token") || Contains(lower(k), "key")) ==>
              Redact(lower, Obj(m)).m[k] == Redact(lower, m[k])
  {
    SensitiveExactly(lower, k);
    var s := before + part + after;
    assert s[|before|..|before| + |part|] == part;
    assert OccursAt(lower(k), part, |before|);
  }

  /** Two documents that differ at most under sensitive keys. */
  predicate AgreeOutside(lower: Lower, v: Json, w: Json)
    decreases v
  {
    match (v, w)
    case (Obj(m), Obj(n)) => m.Keys == n.Keys && forall k :: k in m && !Sensitive(lower, k) ==>
      AgreeOutside(lower, m[k], n[k])
    case (Arr(xs), Arr(ys)) => |xs| == |ys| && forall i :: 0 <= i < |xs| ==> AgreeOutside(lower, xs[i], ys[i])
    case (Obj(_), _) => false
    case (Arr(_), _) => false
    case _ => v == w
  }

  /** What is logged reveals everything outside sensitive keys and nothing under them. */
  lemma {:induction false} RevealsExactlyTheRest(lower: Lower, v: Json, w: Json)
    ensures Redact(lower, v) == Redact(lower, w) <==> AgreeOutside(lower, v, w)
    decreases v
  {
    match (v, w) {
      case (Obj(m), Obj(n)) =>
        if m.Keys == n.Keys {
          forall k | k in m && !Sensitive(lower, k)
            ensures Redact(lower, m[k]) == Redact(lower, n[k]) <==> AgreeOutside(lower, m[k], n[k])
          {
            RevealsExactlyTheRest(lower, m[k], n[k]);
          }
          SameObjects(lower, m, n);
        } else {
          assert Redact(lower, v).m.Keys == m.Keys && Redact(lower, w).m.Keys == n.Keys;
        }
      case (Arr(xs), Arr(ys)) =>
        if |xs| == |ys| {
          forall i | 0 <= i < |xs|
            ensures Redact(lower, xs[i]) == Redact(lower, ys[i]) <==> AgreeOutside(lower, xs[i], ys[i])
          {
            RevealsExactlyTheRest(lower, xs[i], ys[i]);
          }
          SameLists(lower, xs, ys);
        } else {
          assert |Redact(lower, v).xs| == |xs| && |Redact(lower, w).xs| == |ys|;
        }
      case _ =>
    }
  }

  lemma SameObjects(lower: Lower, m: Object, n: Object)
    requires m.Keys == n.Keys
    ensures Redact(lower, Obj(m)) == Redact(lower, Obj(n)) <==>
              forall k :: k in m && !Sensitive(lower, k) ==> Redact(lower, m[k]) == Redact(lower, n[k])
  {
    var rm, rn := Redact(lower, Obj(m)).m, Redact(lower, Obj(n)).m;
    if rm == rn {
      forall k | k in m && !Sensitive(lower, k)
        ensures Redact(lower, m[k]) == Redact(lower, n[k])
      {
        assert rm[k] == rn[k];
      }
    }
    if forall k :: k in m && !Sensitive(lower, k) ==> Redact(lower, m[k]) == Redact(lower, n[k]) {
      assert rm == rn;
    }
  }

  lemma SameLists(lower: Lower, xs: seq<Json>, ys: seq<Json>)
    requires |xs| == |ys|
    ensures Redact(lower, Arr(xs)) == Redact(lower, Arr(ys)) <==> forall i :: 0 <= i < |xs| ==>
              Redact(lower, xs[i]) == Redact(lower, ys[i])
  {
    var rx, ry := Redact(lower, Arr(xs)).xs, Redact(lower, Arr(ys)).xs;
    if rx == ry {
      forall i | 0 <= i < |xs| ensures Redact(lower, xs[i]) == Redact(lower, ys[i]) { assert rx[i] == ry[i]; }
    }
    if forall i :: 0 <= i < |xs| ==> Redact(lower, xs[i]) == Redact(lower, ys[i]) {
      assert rx == ry;
    }
  }

  /** Every value under a sensitive key, at any depth, is the placeholder. */
  predicate FullyRedacted(lower: Lower, v: Json)
    decreases v
  {
    match v
    case Obj(m) => forall k :: k in m ==> if Sensitive(lower, k) then m[k] == REDACTED else FullyRedacted(lower, m[k])
    case Arr(xs) => forall i :: 0 <= i < |xs| ==> FullyRedacted(lower, xs[i])
    case _ => true
  }

  lemma {:induction false} RedactedFully(lower: Lower, v: Json)
    ensures FullyRedacted(lower, Redact(lower, v))
    decreases v
  {
    match v
    case Obj(m) => forall k | k in m && !Sensitive(lower, k) { RedactedFully(lower, m[k]); }
    case Arr(xs) => forall i | 0 <= i < |xs| { RedactedFully(lower, xs[i]); }
    case _ =>
  }

  /** A document is left as it is exactly when nothing sensitive is left in it. */
  lemma {:induction false} UnchangedExactly(lower: Lower, v: Json)
    ensures Redact(lower, v) == v <==> FullyRedacted(lower, v)
    decreases v
  {
    match v {
      case Obj(m) =>
        forall k | k in m && !Sensitive(lower, k)
          ensures Redact(lower, m[k]) == m[k] <==> FullyRedacted(lower, m[k])
        {
          UnchangedExactly(lower, m[k]);
        }
        var r := Redact(lower, v).m;
        if r == m {
          forall k | k in m
            ensures if Sensitive(lower, k) then m[k] == REDACTED else FullyRedacted(lower, m[k])
          {
            assert r[k] == m[k];
          }
        }
        if FullyRedacted(lower, v) { assert r == m; }
      case Arr(xs) =>
        forall i | 0 <= i < |xs|
          ensures Redact(lower, xs[i]) == xs[i] <==> FullyRedacted(lower, xs[i])
        {
          UnchangedExactly(lower, xs[i]);
        }
        var r := Redact(lower, v).xs;
        if r == xs {
          forall i | 0 <= i < |xs| ensures FullyRedacted(lower, xs[i]) { assert r[i] == xs[i]; }
        }
        if FullyRedacted(lower, v) { assert r == xs; }
      case _ =>
    }
  }

  lemma RedactTwice(lower: Lower, v: Json)
    ensures Redact(lower, Redact(lower, v)) == Redact(lower, v)
  {
    RedactedFully(lower, v);
    UnchangedExactly(lower, Redact(lower, v));
  }
}
