/** Optional values, and the outcome of an operation that may return an error. */
module Results {
  datatype Option<+T> = None | Some(value: T)
}

/** Substrings, and functions on names. */
module Text {

  /** Any function from names to names, such as the sanitiser. */
  type Namer = string -> string

  predicate OccursAt(s: string, sub: string, i: nat) {
    i + |sub| <= |s| && s[i..i + |sub|] == sub
  }

  predicate Contains(s: string, sub: string) {
    exists i: nat :: i <= |s| && OccursAt(s, sub, i)
  }
}

/** Powers of two. */
module Powers {

  function Pow2(n: nat): (p: nat)
    ensures p >= 1
  {
    if n == 0 then 1 else 2 * Pow2(n - 1)
  }
}

/** Labels and annotations. */
module StringMaps {
  import opened Results

  type StringMap = map<string, string>

  function Field(m: StringMap, k: string): Option<string> { if k in m then Some(m[k]) else None }

  /** Reading a missing field gives the empty string. */
  function FieldText(m: StringMap, k: string): string { if k in m then m[k] else "" }
}

/** Decoded JSON documents and the raw messages that carry them. */
module JsonValues {
  import opened Results

  datatype Json =
    | Null
    | Bool(b: bool)
    | Num(n: real)
    | Str(s: string)
    | Arr(xs: seq<Json>)
    | Obj(m: map<string, Json>)

  type Object = map<string, Json>

  /** A raw message: no bytes at all, bytes that are not JSON, or a document. */
  datatype Raw = Empty | Malformed | Doc(v: Json)

  /** Unmarshalling into a map: objects decode, `null` decodes to the nil map, all else is an error. */
  function DecodeObject(raw: Raw): Option<Object> {
    match raw
    case Doc(Obj(m)) => Some(m)
    case Doc(Null) => Some(map[])
    case _ => None
  }

  /** What decodes, spelled out. */
  lemma DecodesExactly(raw: Raw)
    ensures DecodeObject(raw).Some? <==> raw.Doc? && (raw.v.Obj? || raw.v.Null?)
    ensures DecodeObject(raw).Some? ==> DecodeObject(raw).value == if raw.v.Obj? then raw.v.m else map[]
  {
  }

  /** A string field, or "" when the field is missing or is not a string. */
  function StrField(m: Object, k: string): string {
    if k in m && m[k].Str? then m[k].s else ""
  }

  predicate HasStr(m: Object, k: string) { k in m && m[k].Str? }
  predicate HasArr(m: Object, k: string) { k in m && m[k].Arr? }
  predicate HasObj(m: Object, k: string) { k in m && m[k].Obj? }

  /** The strings of a list, in order; everything that is not a string is dropped. */
  function Strings(xs: seq<Json>): seq<string> {
    if xs == [] then []
    else (if xs[0].Str? then [xs[0].s] else []) + Strings(xs[1..])
  }

  /** If all are strings nothing is lost, and what is no string is passed over. */
  lemma {:induction false} StringsAreKept(xs: seq<Json>)
    ensures (forall i :: 0 <= i < |xs| ==> xs[i].Str?) ==>
              |Strings(xs)| == |xs| && forall i :: 0 <= i < |xs| ==> Strings(xs)[i] == xs[i].s
    ensures forall x :: x in Strings(xs) <==> Str(x) in xs
  {
    if xs != [] { StringsAreKept(xs[1..]); }
  }
}

/** Sorted key lists: the byte order of sort.Strings, which on UTF-8 text is the order of code points. */
module Ordering {

  predicate LexLeq(a: string, b: string) {
    a == "" || (b != "" && (a[0] < b[0] || (a[0] == b[0] && LexLeq(a[1..], b[1..]))))
  }

  lemma {:induction false} LexTotal(a: string, b: string)
    ensures LexLeq(a, b) || LexLeq(b, a)
    ensures LexLeq(a, b) && LexLeq(b, a) ==> a == b
  {
    if a != "" && b != "" && a[0] == b[0] {
      LexTotal(a[1..], b[1..]);
      assert a == [a[0]] + a[1..] && b == [b[0]] + b[1..];
    }
  }

  lemma {:induction false} LexTransitive(a: string, b: string, c: string)
    requires LexLeq(a, b) && LexLeq(b, c)
    ensures LexLeq(a, c)
  {
    if a != "" && a[0] == b[0] && b[0] == c[0] {
      LexTransitive(a[1..], b[1..], c[1..]);
    }
  }

  /** The first difference decides, and a proper prefix comes first. */
  lemma {:induction false} FirstDifferenceDecides(p: string, a: string, b: string)
    ensures a != "" && b != "" && a[0] != b[0] ==> (LexLeq(p + a, p + b) <==> a[0] < b[0])
    ensures LexLeq(p, p + a) && (a != "" ==> !LexLeq(p + a, p))
  {
    if p == "" {
      assert p + a == a && p + b == b;
    } else {
      assert (p + a)[1..] == p[1..] + a && (p + b)[1..] == p[1..] + b;
      FirstDifferenceDecides(p[1..], a, b);
    }
  }

  predicate Sorted(ks: seq<string>) {
    forall i, j :: 0 <= i < j < |ks| ==> ks[i] != ks[j] && LexLeq(ks[i], ks[j])
  }

  /** `ks` lists the members of `s`, each once. */
  ghost predicate Enumerates(ks: seq<string>, s: set<string>) {
    && (forall k :: k in ks <==> k in s)
    && (forall i, j :: 0 <= i < j < |ks| ==> ks[i] != ks[j])
  }

  /** The sorted list of a key set: exactly the keys, each once, in order. */
  method SortKeys(keys: set<string>) returns (ks: seq<string>)
    ensures Sorted(ks) && Enumerates(ks, keys)
  {
    ks := [];
    var rest := keys;
    while rest != {}
      invariant Sorted(ks)
      invariant rest <= keys && forall k :: k in ks <==> k in keys - rest
      decreases rest
    {
      var k :| k in rest;
      ks := Insert(ks, k);
      rest := rest - {k};
    }
  }

  method Insert(ks: seq<string>, k: string) returns (out: seq<string>)
    requires Sorted(ks) && k !in ks
    ensures Sorted(out) && forall x :: x in out <==> x in ks || x == k
  {
    var i := 0;
    while i < |ks| && LexLeq(ks[i], k)
      invariant 0 <= i <= |ks|
      invariant forall j :: 0 <= j < i ==> LexLeq(ks[j], k)
    {
      i := i + 1;
    }
    out := ks[..i] + [k] + ks[i..];
    forall j | i <= j < |ks| ensures LexLeq(k, ks[j]) {
      LexTotal(ks[i], k);
      if i < j { LexTransitive(k, ks[i], ks[j]); }
    }
    assert forall j :: i < j < |out| ==> out[j] == ks[j - 1];
  }
}
