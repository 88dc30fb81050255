/**
  Semantic equality of decoded values and the keys that differ
  (internal/apply/diff.go, internal/apply/numeric.go).

  A float is a real number, an infinity or NaN. Converting an integer to float64 is a parameter that
  may round: it is exact only on the integers that float64 represents.
 */
module SemanticEquality {
  import opened Results
  import opened Powers

  datatype Float = Finite(r: real) | PosInf | NegInf | NaN

  datatype SmallType = Int8 | Int16 | Int32 | Uint8 | Uint16 | Uint32

  /** Any integer of at most 32 bits, signed or not. */
  type SmallInt = n: int | -0x8000_0000 <= n < 0x1_0000_0000
  type Signed64 = n: int | -0x8000_0000_0000_0000 <= n < 0x8000_0000_0000_0000
  type Unsigned64 = n: int | 0 <= n < 0x1_0000_0000_0000_0000

  /** The dynamic types a value may have; Int and Uint are Go's 64-bit `int` and `uint`. */
  datatype Value =
    | Nil
    | Bool(b: bool)
    | Str(s: string)
    | Float64(f: Float)
    | Float32(f: Float)
    | Small(typ: SmallType, w: SmallInt)
    | Int(i: Signed64)
    | Int64(i: Signed64)
    | Uint(u: Unsigned64)
    | Uint64(u: Unsigned64)
    | List(xs: seq<Value>)
    | Map(m: map<string, Value>)

  /** The guard of the code. */
  const MAX_EXACT := 0x20_0000_0000_0000 // 2^53

  // ---------------------------------------------------------------------------------------------
  // Conversion to float64

  /** What float64 offers: significands of 53 bits. */
  const SIGNIFICANDS := 0x20_0000_0000_0000

  ghost predicate Representable(n: int) {
    exists e: nat :: n % Pow2(e) == 0 && -SIGNIFICANDS <= n / Pow2(e) <= SIGNIFICANDS
  }

  ghost predicate ExactWherePossible(f: int -> real) {
    forall n :: Representable(n) ==> f(n) == n as real
  }

  /** Conversion of an integer: what is representable is kept, the rest may be rounded in any way. */
  type Rounding = f: int -> real | ExactWherePossible(f) ghost witness ((n: int) => n as real)

  lemma ExactUpTo53Bits(fl: Rounding, n: int)
    requires -MAX_EXACT <= n <= MAX_EXACT
    ensures fl(n) == n as real
  {
    assert n % Pow2(0) == 0 && n / Pow2(0) == n;
    assert Representable(n);
  }

  lemma EvenMultiple(n: int, e: nat)
    requires e > 0 && n % Pow2(e) == 0
    ensures n % 2 == 0
  {
    var q, h := n / Pow2(e), Pow2(e - 1);
    assert n == q * (2 * h) == 2 * (q * h);
  }

  lemma NextIsNotRepresentable()
    ensures !Representable(SIGNIFICANDS + 1)
  {
    var n := SIGNIFICANDS + 1;
    forall e: nat | n % Pow2(e) == 0 ensures n / Pow2(e) > SIGNIFICANDS {
      if e > 0 { EvenMultiple(n, e); }
    }
  }

  // ---------------------------------------------------------------------------------------------
  // The operations

  /** NumberToFloat: integers convert only where float64 represents every one of them. */
  function NumberToFloat(fl: Rounding, v: Value): Option<Float> {
    match v
    case Float64(f) => Some(f)
    case Float32(f) => Some(f)
    case Small(_, n) => Some(Finite(fl(n)))
    case Int(n) => if -MAX_EXACT <= n <= MAX_EXACT then Some(Finite(fl(n))) else None
    case Int64(n) => if -MAX_EXACT <= n <= MAX_EXACT then Some(Finite(fl(n))) else None
    case Uint(n) => if n <= MAX_EXACT then Some(Finite(fl(n))) else None
    case Uint64(n) => if n <= MAX_EXACT then Some(Finite(fl(n))) else None
    case _ => None
  }

  /** Strict equality of type and contents, in which NaN differs from itself. */
  predicate DeepEqual(a: Value, b: Value)
    decreases a
  {
    match (a, b)
    case (Float64(f), Float64(g)) => f == g && !f.NaN?
    case (Float32(f), Float32(g)) => f == g && !f.NaN?
    case (List(xs), List(ys)) => |xs| == |ys| && forall i :: 0 <= i < |xs| ==> DeepEqual(xs[i], ys[i])
    case (Map(m), Map(n)) => m.Keys == n.Keys && forall k :: k in m ==> DeepEqual(m[k], n[k])
    case (Float64(_), _) => false
    case (Float32(_), _) => false
    case (List(_), _) => false
    case (Map(_), _) => false
    case _ => a == b
  }

  /** Reading a missing key gives nil. */
  function Get(m: map<string, Value>, k: string): Value {
    if k in m then m[k] else Nil
  }

  predicate FloatsEqual(f: Float, g: Float) {
    (f.NaN? && g.NaN?) || (f == g && !f.NaN?)
  }

  predicate IntUintEqual(a: Value, b: Value) {
    match (a, b)
    case (Int64(x), Int64(y)) => x == y
    case (Int64(x), Uint64(y)) => x >= 0 && x == y
    case (Uint64(x), Uint64(y)) => x == y
    case (Uint64(x), Int64(y)) => y >= 0 && x == y
    case _ => false
  }

  predicate ValuesEqual(fl: Rounding, a: Value, b: Value)
    decreases a.Map?, a
  {
    var fa, fb := NumberToFloat(fl, a), NumberToFloat(fl, b);
    if DeepEqual(a, b) then true
    else if fa.Some? && fb.Some? then FloatsEqual(fa.value, fb.value)
    else if fa.Some? || fb.Some? then false
    else if a.Map? && b.Map? then
      && (forall k :: k in a.m ==> ValuesEqual(fl, a.m[k], Get(b.m, k)))
      && (forall k :: k in b.m ==> if k in a.m then ValuesEqual(fl, a.m[k], b.m[k]) else ValuesEqual(fl, Nil, b.m[k]))
    else if a.Map? || b.Map? then false
    else IntUintEqual(a, b)
  }

  // ---------------------------------------------------------------------------------------------
  // The reference: canonical forms

  datatype Canon =
    | CNil
    | CBool(b: bool)
    | CStr(s: string)
    | CNumber(f: Float)
    | CBig(n: int)
    | CInt(n: int)
    | CUint(n: int)
    | CList(xs: seq<Value>)
    | CMap(m: map<string, Canon>)

  /** Numbers by value, maps without their nil entries, lists as they are. */
  function Canonical(fl: Rounding, v: Value): Canon
    decreases v
  {
    if NumberToFloat(fl, v).Some? then CNumber(NumberToFloat(fl, v).value)
    else
      match v
      case Nil => CNil
      case Bool(b) => CBool(b)
      case Str(s) => CStr(s)
      case Int(n) => CInt(n)
      case Uint(n) => CUint(n)
      case Int64(n) => CBig(n)
      case Uint64(n) => CBig(n)
      case List(xs) => CList(xs)
      case Map(m) => CMap(map k | k in m && !m[k].Nil? :: Canonical(fl, m[k]))
      case _ => CNil
  }

  predicate NaNFree(v: Value)
    decreases v
  {
    match v
    case Float64(f) => !f.NaN?
    case Float32(f) => !f.NaN?
    case List(xs) => forall i :: 0 <= i < |xs| ==> NaNFree(xs[i])
    case Map(m) => forall k :: k in m ==> NaNFree(m[k])
    case _ => true
  }

  /** No NaN inside a list; outside lists NaN is compared by value. */
  predicate ListsNaNFree(v: Value)
    decreases v
  {
    match v
    case List(_) => NaNFree(v)
    case Map(m) => forall k :: k in m ==> ListsNaNFree(m[k])
    case _ => true
  }

  lemma {:induction false} DeepEqualIsEquality(a: Value, b: Value)
    ensures DeepEqual(a, b) <==> a == b && NaNFree(a)
    decreases a
  {
    match (a, b) {
      case (List(xs), List(ys)) =>
        if |xs| == |ys| {
          forall i | 0 <= i < |xs|
            ensures DeepEqual(xs[i], ys[i]) <==> xs[i] == ys[i] && NaNFree(xs[i])
          {
            DeepEqualIsEquality(xs[i], ys[i]);
          }
        }
      case (Map(m), Map(n)) =>
        if m.Keys == n.Keys {
          forall k | k in m
            ensures DeepEqual(m[k], n[k]) <==> m[k] == n[k] && NaNFree(m[k])
          {
            DeepEqualIsEquality(m[k], n[k]);
          }
        }
      case _ =>
    }
  }

  lemma {:induction false} NaNFreeLists(v: Value)
    requires NaNFree(v)
    ensures ListsNaNFree(v)
    decreases v
  {
    if v.Map? {
      forall k | k in v.m ensures ListsNaNFree(v.m[k]) { NaNFreeLists(v.m[k]); }
    }
  }

  lemma CanonicalNil(fl: Rounding, v: Value)
    ensures Canonical(fl, v) == CNil <==> v == Nil
  {
  }

  /** On everything but maps, semantic equality is equality of canonical forms. */
  lemma ScalarsByCanonicalForm(fl: Rounding, a: Value, b: Value)
    requires !a.Map? || !b.Map?
    ensures ValuesEqual(fl, a, b) <==> Canonical(fl, a) == Canonical(fl, b) && ListsNaNFree(a)
  {
    DeepEqualIsEquality(a, b);
    if DeepEqual(a, b) { NaNFreeLists(a); }
  }

  /** Two maps agree semantically at every key. */
  ghost predicate AgreeEverywhere(fl: Rounding, m: map<string, Value>, n: map<string, Value>) {
    forall k :: k in m.Keys + n.Keys ==> ValuesEqual(fl, Get(m, k), Get(n, k))
  }

  /** Maps are equal exactly when they agree at every key, a missing key counting as nil. */
  lemma {:induction false} MapsByKey(fl: Rounding, m: map<string, Value>, n: map<string, Value>)
    ensures ValuesEqual(fl, Map(m), Map(n)) <==> AgreeEverywhere(fl, m, n)
  {
    var a, b := Map(m), Map(n);
    DeepEqualIsEquality(a, b);
    if DeepEqual(a, b) {
      forall k | k in m.Keys + n.Keys ensures ValuesEqual(fl, Get(m, k), Get(n, k)) { DeepEqualIsEquality(m[k], n[k]); }
    } else {
      if AgreeEverywhere(fl, m, n) {
        forall k | k in m ensures ValuesEqual(fl, m[k], Get(n, k)) { assert k in m.Keys + n.Keys; }
        forall k | k in n
          ensures if k in m then ValuesEqual(fl, m[k], n[k]) else ValuesEqual(fl, Nil, n[k])
        {
          assert k in m.Keys + n.Keys;
        }
      }
    }
  }

  /** Semantic equality is equality of canonical forms, up to NaN inside lists. */
  lemma {:induction false} EqualityByCanonicalForm(fl: Rounding, a: Value, b: Value)
    ensures ValuesEqual(fl, a, b) <==> Canonical(fl, a) == Canonical(fl, b) && ListsNaNFree(a)
    decreases a.Map?, a
  {
    if a.Map? && b.Map? {
      MapsByKey(fl, a.m, b.m);
      forall k | k in a.m.Keys + b.m.Keys
        ensures ValuesEqual(fl, Get(a.m, k), Get(b.m, k)) <==>
                  Canonical(fl, Get(a.m, k)) == Canonical(fl, Get(b.m, k)) && ListsNaNFree(Get(a.m, k))
      {
        EqualityByCanonicalForm(fl, Get(a.m, k), Get(b.m, k));
      }
      CanonicalMaps(fl, a.m, b.m);
      AgreementByForm(fl, a.m, b.m);
    } else {
      ScalarsByCanonicalForm(fl, a, b);
    }
  }

  lemma AgreementByForm(fl: Rounding, m: map<string, Value>, n: map<string, Value>)
    requires forall k :: k in m.Keys + n.Keys ==>
               (ValuesEqual(fl, Get(m, k), Get(n, k)) <==>
                 Canonical(fl, Get(m, k)) == Canonical(fl, Get(n, k)) && ListsNaNFree(Get(m, k)))
    ensures AgreeEverywhere(fl, m, n) <==>
              (forall k :: k in m.Keys + n.Keys ==> Canonical(fl, Get(m, k)) == Canonical(fl, Get(n, k)))
                && ListsNaNFree(Map(m))
  {
    if AgreeEverywhere(fl, m, n) {
      forall k | k in m ensures ListsNaNFree(m[k]) { assert ValuesEqual(fl, Get(m, k), Get(n, k)); }
    }
    if ListsNaNFree(Map(m)) {
      forall k | k in m.Keys + n.Keys ensures ListsNaNFree(Get(m, k)) { if k in m { assert ListsNaNFree(m[k]); } }
    }
  }

  lemma CanonicalMaps(fl: Rounding, m: map<string, Value>, n: map<string, Value>)
    ensures Canonical(fl, Map(m)) == Canonical(fl, Map(n)) <==> forall k :: k in m.Keys + n.Keys ==>
              Canonical(fl, Get(m, k)) == Canonical(fl, Get(n, k))
  {
    var cm, cn := Canonical(fl, Map(m)).m, Canonical(fl, Map(n)).m;
    if cm == cn {
      forall k | k in m.Keys + n.Keys ensures Canonical(fl, Get(m, k)) == Canonical(fl, Get(n, k)) {
        assert k in cm <==> k in cn;
        if k in cm { assert cm[k] == cn[k]; }
      }
    }
    if forall k :: k in m.Keys + n.Keys ==> Canonical(fl, Get(m, k)) == Canonical(fl, Get(n, k)) {
      forall k ensures k in cm <==> k in cn {
        CanonicalNil(fl, Get(m, k));
        CanonicalNil(fl, Get(n, k));
      }
      assert cm.Keys == cn.Keys;
      forall k | k in cm ensures cm[k] == cn[k] {}
    }
  }

  // ---------------------------------------------------------------------------------------------
  // The theorems

  /** Reflexive exactly on values without NaN inside a list. */
  lemma Reflexive(fl: Rounding, a: Value)
    ensures ValuesEqual(fl, a, a) <==> ListsNaNFree(a)
  {
    EqualityByCanonicalForm(fl, a, a);
  }

  lemma {:induction false} SameFormSameLists(fl: Rounding, a: Value, b: Value)
    requires Canonical(fl, a) == Canonical(fl, b) && ListsNaNFree(a)
    ensures ListsNaNFree(b)
    decreases b
  {
    if b.Map? {
      forall k | k in b.m ensures ListsNaNFree(b.m[k]) {
        CanonicalMaps(fl, a.m, b.m);
        assert k in a.m.Keys + b.m.Keys;
        SameFormSameLists(fl, Get(a.m, k), b.m[k]);
      }
    }
  }

  lemma Symmetric(fl: Rounding, a: Value, b: Value)
    ensures ValuesEqual(fl, a, b) <==> ValuesEqual(fl, b, a)
  {
    EqualityByCanonicalForm(fl, a, b);
    EqualityByCanonicalForm(fl, b, a);
    if Canonical(fl, a) == Canonical(fl, b) {
      if ListsNaNFree(a) { SameFormSameLists(fl, a, b); }
      if ListsNaNFree(b) { SameFormSameLists(fl, b, a); }
    }
  }

  lemma Transitive(fl: Rounding, a: Value, b: Value, c: Value)
    requires ValuesEqual(fl, a, b) && ValuesEqual(fl, b, c)
    ensures ValuesEqual(fl, a, c)
  {
    EqualityByCanonicalForm(fl, a, b);
    EqualityByCanonicalForm(fl, b, c);
    EqualityByCanonicalForm(fl, a, c);
  }

  predicate IsNumber(v: Value) {
    v.Float64? || v.Float32? || IsInteger(v)
  }

  predicate IsInteger(v: Value) {
    v.Small? || v.Int? || v.Int64? || v.Uint? || v.Uint64?
  }

  function IntegerOf(v: Value): int
    requires IsInteger(v)
  {
    match v case Small(_, w) => w case Int(i) => i case Int64(i) => i case Uint(u) => u case Uint64(u) => u
  }

  /** The mathematical value of a number. */
  function NumericValue(v: Value): Float
    requires IsNumber(v)
  {
    if v.Float64? || v.Float32? then v.f else Finite(IntegerOf(v) as real)
  }

  /** What the guard is for: whatever is converted keeps its value. */
  lemma ConversionIsExact(fl: Rounding, v: Value)
    requires IsNumber(v) && NumberToFloat(fl, v).Some?
    ensures NumberToFloat(fl, v).value == NumericValue(v)
  {
    if IsInteger(v) { ExactUpTo53Bits(fl, IntegerOf(v)); }
  }

  /** The float path never identifies two numbers of different value. */
  lemma EqualNumbersHaveEqualValue(fl: Rounding, a: Value, b: Value)
    requires IsNumber(a) && IsNumber(b) && ValuesEqual(fl, a, b)
    ensures NumericValue(a) == NumericValue(b)
  {
    EqualityByCanonicalForm(fl, a, b);
    if NumberToFloat(fl, a).Some? {
      ConversionIsExact(fl, a);
      ConversionIsExact(fl, b);
    }
  }

  /** What is converted, by magnitude: floats, integers of at most 32 bits, and integers up to 2^53. */
  lemma ConvertedExactly(fl: Rounding, v: Value)
    requires IsNumber(v)
    ensures NumberToFloat(fl, v).Some? <==>
              v.Float64? || v.Float32? || -9007199254740992 <= IntegerOf(v) <= 9007199254740992
  {
  }

  predicate IsLarge(v: Value) {
    IsInteger(v) && (IntegerOf(v) < -9007199254740992 || IntegerOf(v) > 9007199254740992)
  }

  /**
    And it misses an equality of value only if one of the two is an integer beyond 2^53 and they are not
    both of type int, or both of type uint, or both of the types int64 and uint64.
   */
  lemma MissedEqualities(fl: Rounding, a: Value, b: Value)
    requires IsNumber(a) && IsNumber(b) && NumericValue(a) == NumericValue(b)
    ensures ValuesEqual(fl, a, b) <==>
              || (!IsLarge(a) && !IsLarge(b))
              || (a.Int? && b.Int?) || (a.Uint? && b.Uint?) || ((a.Int64? || a.Uint64?) && (b.Int64? || b.Uint64?))
  {
    EqualityByCanonicalForm(fl, a, b);
    ConvertedExactly(fl, a);
    ConvertedExactly(fl, b);
    if NumberToFloat(fl, a).Some? { ConversionIsExact(fl, a); }
    if NumberToFloat(fl, b).Some? { ConversionIsExact(fl, b); }
    if IsInteger(a) && IsInteger(b) {
      assert IntegerOf(a) as real == IntegerOf(b) as real ==> IntegerOf(a) == IntegerOf(b);
    }
  }

  /** The guard cannot be moved by one: a lawful conversion may merge 2^53 + 1 with 2^53. */
  lemma GuardIsTight() returns (fl: Rounding)
    ensures fl(MAX_EXACT + 1) == fl(MAX_EXACT)
    ensures NumberToFloat(fl, Int64(MAX_EXACT)).Some? && NumberToFloat(fl, Int64(MAX_EXACT + 1)).None?
    ensures !ValuesEqual(fl, Int64(MAX_EXACT + 1), Int64(MAX_EXACT))
  {
    var f: int -> real := n => if n == MAX_EXACT + 1 then MAX_EXACT as real else n as real;
    NextIsNotRepresentable();
    fl := f;
  }

  /** DiffKeys: collect the keys of both maps, keep those whose values differ. */
  method DiffKeys(fl: Rounding, oldM: map<string, Value>, newM: map<string, Value>) returns (changed: seq<string>)
    ensures forall k :: k in changed <==> k in oldM.Keys + newM.Keys && !ValuesEqual(fl, Get(oldM, k), Get(newM, k))
    ensures forall i, j :: 0 <= i < j < |changed| ==> changed[i] != changed[j]
    ensures changed == [] <==> ValuesEqual(fl, Map(oldM), Map(newM))
  {
    var keys := oldM.Keys + newM.Keys;
    changed := [];
    var rest := keys;
    while rest != {}
      invariant rest <= keys
      invariant forall k :: k in changed <==> k in keys - rest && !ValuesEqual(fl, Get(oldM, k), Get(newM, k))
      invariant forall i, j :: 0 <= i < j < |changed| ==> changed[i] != changed[j]
      decreases rest
    {
      var k :| k in rest;
      if !ValuesEqual(fl, Get(oldM, k), Get(newM, k)) {
        changed := changed + [k];
      }
      rest := rest - {k};
    }
    MapsByKey(fl, oldM, newM);
    NothingChanged(fl, oldM, newM, changed);
  }

  lemma NothingChanged(fl: Rounding, m: map<string, Value>, n: map<string, Value>, changed: seq<string>)
    requires forall k :: k in changed <==> k in m.Keys + n.Keys && !ValuesEqual(fl, Get(m, k), Get(n, k))
    ensures changed == [] <==> AgreeEverywhere(fl, m, n)
  {
    if changed != [] { assert changed[0] in changed; }
  }
}
