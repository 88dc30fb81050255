/**
  Kubernetes-safe resource names (internal/transform/sanitize/sanitize.go).

  The two library functions the sanitiser rests on are parameters, collected in a `Codec`: the
  lower-casing of one rune and the ten-character SHA-256 prefix. Every theorem holds for every
  choice of them that obeys the laws written in `Lowering` and `ShortHash`.
 */
module Names {

  const MAX_NAME_LENGTH := 253
  const HASH_LENGTH := 10

  predicate IsAlphaNum(c: char) {
    'a' <= c <= 'z' || '0' <= c <= '9'
  }

  predicate IsHex(c: char) {
    '0' <= c <= '9' || 'a' <= c <= 'f'
  }

  /** Lower-casing of one rune: it fixes the characters a sanitised name is made of. */
  type Lowering = f: char -> char | forall c :: IsAlphaNum(c) || c == '-' ==> f(c) == c witness c => c

  /** The first HASH_LENGTH characters of a hexadecimal digest. */
  type ShortHash = h: string -> string |
    forall s :: |h(s)| == HASH_LENGTH && forall i :: 0 <= i < HASH_LENGTH ==> IsHex(h(s)[i])
    witness _ => "0000000000"

  datatype Codec = Codec(lower: Lowering, shortHash: ShortHash)

  function Lower(cd: Codec, s: string): (r: string)
    ensures |r| == |s| && forall i :: 0 <= i < |s| ==> r[i] == cd.lower(s[i])
  {
    seq(|s|, i requires 0 <= i < |s| => cd.lower(s[i]))
  }

  // ---------------------------------------------------------------------------------------------
  // The operations

  /** What one pass of the rune loop writes, given whether the last thing written was a dash. */
  function BaseName(s: string, lastDash: bool): string {
    if s == "" then ""
    else if IsAlphaNum(s[0]) then [s[0]] + BaseName(s[1..], false)
    else if lastDash then BaseName(s[1..], true)
    else "-" + BaseName(s[1..], true)
  }

  /** The rune loop with its builder and its `lastDash` flag. */
  method BuildBaseName(lowered: string) returns (b: string)
    ensures b == BaseName(lowered, true)
  {
    b := "";
    var lastDash := true;
    for i := 0 to |lowered|
      invariant b + BaseName(lowered[i..], lastDash) == BaseName(lowered, true)
    {
      assert lowered[i..][1..] == lowered[i + 1..];
      ghost var before := b;
      if IsAlphaNum(lowered[i]) {
        b := b + [lowered[i]];
        lastDash := false;
        assert b + BaseName(lowered[i + 1..], false) == before + ([lowered[i]] + BaseName(lowered[i + 1..], false));
      } else if !lastDash {
        b := b + "-";
        lastDash := true;
        assert b + BaseName(lowered[i + 1..], true) == before + ("-" + BaseName(lowered[i + 1..], true));
      }
    }
  }

  function TrimLeft(s: string): string {
    if s != "" && s[0] == '-' then TrimLeft(s[1..]) else s
  }

  function TrimRight(s: string): (r: string)
    ensures |r| <= |s|
  {
    if s != "" && s[|s| - 1] == '-' then TrimRight(s[..|s| - 1]) else s
  }

  function Finalize(cd: Codec, sanitized: string, original: string): string {
    if sanitized == "" then "x-" + cd.shortHash(original)
    else if |sanitized| <= MAX_NAME_LENGTH then sanitized
    else
      var suffix := cd.shortHash(original);
      var maxBaseLen := MAX_NAME_LENGTH - |suffix| - 1;
      if maxBaseLen < 1 then suffix
      else
        var maxTrimLen := if MAX_NAME_LENGTH > |sanitized| then |sanitized| else MAX_NAME_LENGTH;
        var trimmed := TrimRight(sanitized[..maxTrimLen]);
        var cut := if |trimmed| > maxBaseLen then TrimRight(trimmed[..maxBaseLen]) else trimmed;
        (if cut == "" then "x" else cut) + "-" + suffix
  }

  function Sanitize(cd: Codec, name: string): string {
    Finalize(cd, TrimRight(TrimLeft(BaseName(Lower(cd, name), true))), name)
  }

  /** SanitizeResourceName as the source runs it, loop and all. */
  method SanitizeResourceName(cd: Codec, name: string) returns (r: string)
    ensures r == Sanitize(cd, name)
    ensures IsLabel(r) && |r| <= MAX_NAME_LENGTH
  {
    var candidate := BuildBaseName(Lower(cd, name));
    r := Finalize(cd, TrimRight(TrimLeft(candidate)), name);
    SanitizeShape(cd, name);
  }

  // ---------------------------------------------------------------------------------------------
  // The reference: a name is its maximal alphanumeric runs, joined by single dashes

  function Run(s: string): (n: nat)
    ensures n <= |s|
    ensures forall i :: 0 <= i < n ==> IsAlphaNum(s[i])
    ensures n < |s| ==> !IsAlphaNum(s[n])
  {
    if s == "" || !IsAlphaNum(s[0]) then 0 else 1 + Run(s[1..])
  }

  function Words(s: string): seq<string>
    decreases |s|
  {
    if s == "" then []
    else if !IsAlphaNum(s[0]) then Words(s[1..])
    else [s[..Run(s)]] + Words(s[Run(s)..])
  }

  function Join(ws: seq<string>): string {
    if ws == [] then "" else if |ws| == 1 then ws[0] else ws[0] + "-" + Join(ws[1..])
  }

  predicate IsWord(w: string) {
    w != "" && forall i :: 0 <= i < |w| ==> IsAlphaNum(w[i])
  }

  /** The label shape of section 2.1 of RFC 1123, with doubled dashes excluded as well. */
  ghost predicate IsLabel(s: string) {
    && s != ""
    && (forall i :: 0 <= i < |s| ==> IsAlphaNum(s[i]) || s[i] == '-')
    && s[0] != '-' && s[|s| - 1] != '-'
    && (forall i, j :: 0 <= i < |s| && 0 <= j < |s| && j == i + 1 ==> s[i] != '-' || s[j] != '-')
  }

  /** A name that the sanitiser returns whole, without falling back on the hash. */
  predicate Untruncated(cd: Codec, name: string) {
    Words(Lower(cd, name)) != [] && |Join(Words(Lower(cd, name)))| <= MAX_NAME_LENGTH
  }

  // ---------------------------------------------------------------------------------------------
  // Words

  lemma {:induction false} WordsAreWords(s: string)
    ensures forall i :: 0 <= i < |Words(s)| ==> IsWord(Words(s)[i])
    decreases |s|
  {
    if s != "" {
      if !IsAlphaNum(s[0]) { WordsAreWords(s[1..]); } else { WordsAreWords(s[Run(s)..]); }
    }
  }

  /** A leading run is copied unchanged; what follows it is then read with no dash pending. */
  lemma {:induction false} BaseNameRun(s: string, lastDash: bool)
    requires s != "" && IsAlphaNum(s[0])
    ensures BaseName(s, lastDash) == s[..Run(s)] + BaseName(s[Run(s)..], false)
  {
    var t := s[1..];
    assert BaseName(s, lastDash) == [s[0]] + BaseName(t, false);
    if t != "" && IsAlphaNum(t[0]) {
      var n := Run(t);
      assert BaseName(t, false) == t[..n] + BaseName(t[n..], false) by { BaseNameRun(t, false); }
      assert Run(s) == n + 1;
      CutAfterFirst(s, n);
      Reassociate3([s[0]], t[..n], BaseName(t[n..], false));
    } else {
      assert Run(s) == 1;
      assert s[..1] == [s[0]];
    }
  }

  lemma CutAfterFirst(s: string, n: nat)
    requires n < |s|
    ensures s[..n + 1] == [s[0]] + s[1..][..n] && s[n + 1..] == s[1..][n..]
  {
  }

  lemma Reassociate3(a: string, b: string, c: string)
    ensures a + (b + c) == a + b + c
  {
  }

  lemma {:induction false} JoinCons(w: string, ws: seq<string>)
    ensures Join([w] + ws) == if ws == [] then w else w + "-" + Join(ws)
  {
    assert ([w] + ws)[1..] == ws;
  }

  lemma {:induction false} WordsAfterRun(s: string)
    requires s != "" && IsAlphaNum(s[0]) && Run(s) < |s|
    ensures Words(s) == [s[..Run(s)]] + Words(s[Run(s) + 1..])
  {
    var n := Run(s);
    assert s[n..][1..] == s[n + 1..];
  }

  /** After a run and a separator the loop has written the run and, as it turns out, one dash. */
  lemma {:induction false} BaseNameAfterRun(s: string)
    requires s != "" && IsAlphaNum(s[0]) && Run(s) < |s|
    ensures BaseName(s, true) == s[..Run(s)] + ("-" + BaseName(s[Run(s) + 1..], true))
  {
    var n := Run(s);
    BaseNameRun(s, true);
    assert s[n..][1..] == s[n + 1..];
  }

  /** The loop writes the words joined by dashes, plus one dash if it ended on a separator. */
  lemma {:induction false} BaseNameIsJoin(s: string)
    ensures BaseName(s, true) == Join(Words(s)) || BaseName(s, true) == Join(Words(s)) + "-"
    ensures Words(s) == [] ==> BaseName(s, true) == ""
    decreases |s|
  {
    if s == "" {
    } else if !IsAlphaNum(s[0]) {
      BaseNameIsJoin(s[1..]);
    } else if Run(s) == |s| {
      BaseNameRun(s, true);
      assert s[..|s|] == s && s[|s|..] == "";
    } else {
      var w, rest := s[..Run(s)], s[Run(s) + 1..];
      BaseNameIsJoin(rest);
      var j, b := Join(Words(rest)), BaseName(rest, true);
      assert BaseName(s, true) == w + ("-" + b) by { BaseNameAfterRun(s); }
      assert Words(s) == [w] + Words(rest) by { WordsAfterRun(s); }
      JoinCons(w, Words(rest));
      Reassociate(w, j, b);
    }
  }

  lemma Reassociate(w: string, j: string, b: string)
    ensures b == j ==> w + ("-" + b) == w + "-" + j
    ensures b == j + "-" ==> w + ("-" + b) == w + "-" + j + "-"
    ensures b == "" ==> w + ("-" + b) == w + "-"
  {
  }

  lemma {:induction false} JoinIsLabel(ws: seq<string>)
    requires ws != [] && forall i :: 0 <= i < |ws| ==> IsWord(ws[i])
    ensures IsLabel(Join(ws))
  {
    if |ws| > 1 {
      JoinIsLabel(ws[1..]);
      LabelJoin(ws[0], Join(ws[1..]));
    }
  }

  lemma LabelJoin(a: string, b: string)
    requires IsLabel(a) && IsLabel(b)
    ensures IsLabel(a + "-" + b)
  {
    var s := a + "-" + b;
    forall i, j | 0 <= i < j < |s| && j == i + 1 ensures s[i] != '-' || s[j] != '-' {
      if j < |a| {
        assert s[i] == a[i] && s[j] == a[j];
      } else if i > |a| {
        assert s[i] == b[i - |a| - 1] && s[j] == b[j - |a| - 1];
      }
    }
  }

  /** Trimming undoes the one trailing dash and nothing else. */
  lemma {:induction false} TrimmedBaseIsJoin(s: string)
    ensures TrimRight(TrimLeft(BaseName(s, true))) == Join(Words(s))
  {
    BaseNameIsJoin(s);
    WordsAreWords(s);
    var j := Join(Words(s));
    if Words(s) != [] {
      JoinIsLabel(Words(s));
      assert TrimLeft(j) == j && TrimLeft(j + "-") == j + "-";
      assert (j + "-")[..|j|] == j;
    }
  }

  /** What follows a dash inside a label is a label. */
  lemma LabelTail(s: string, n: nat)
    requires IsLabel(s) && n < |s| && s[n] == '-'
    ensures n + 1 < |s| && IsLabel(s[n + 1..])
  {
    var rest := s[n + 1..];
    forall i | 0 <= i < |rest| ensures IsAlphaNum(rest[i]) || rest[i] == '-' { assert rest[i] == s[n + 1 + i]; }
    forall i, j | 0 <= i < j < |rest| && j == i + 1 ensures rest[i] != '-' || rest[j] != '-' {
      assert rest[i] == s[n + 1 + i] && rest[j] == s[n + 1 + j];
    }
  }

  lemma {:induction false} JoinWordsOfLabel(s: string)
    requires IsLabel(s)
    ensures Words(s) != [] && Join(Words(s)) == s
    decreases |s|
  {
    var n := Run(s);
    assert IsAlphaNum(s[0]);
    if n == |s| {
      assert s[..n] == s && Words(s[n..]) == [];
    } else {
      var w, rest := s[..n], s[n + 1..];
      LabelTail(s, n);
      calc {
        Join(Words(s));
        { WordsAfterRun(s); }
        Join([w] + Words(rest));
        { JoinWordsOfLabel(rest); JoinCons(w, Words(rest)); }
        w + "-" + rest;
        s;
      }
    }
  }

  lemma {:induction false} RunOfWord(w: string, t: string)
    requires forall i :: 0 <= i < |w| ==> IsAlphaNum(w[i])
    requires t == "" || !IsAlphaNum(t[0])
    ensures Run(w + t) == |w|
  {
    if w == "" {
      assert w + t == t;
    } else {
      RunOfWord(w[1..], t);
      assert (w + t)[1..] == w[1..] + t;
    }
  }

  /** A separator splits the words of a string into the words of its two sides. */
  lemma {:induction false} WordsSplit(s: string, t: string)
    ensures Words(s + "-" + t) == Words(s) + Words(t)
    decreases |s|
  {
    var all := s + "-" + t;
    if s == "" {
      assert all[1..] == t;
    } else if !IsAlphaNum(s[0]) {
      assert all[1..] == s[1..] + "-" + t;
      WordsSplit(s[1..], t);
    } else {
      var n := Run(s);
      var tail := s[n..] + "-" + t;
      assert all == s[..n] + tail;
      RunOfWord(s[..n], tail);
      assert all[..n] == s[..n] && all[n..] == tail;
      WordsSplit(s[n..], t);
      assert Words(all) == [s[..n]] + (Words(s[n..]) + Words(t));
    }
  }

  lemma WordsOfWord(w: string)
    requires IsWord(w)
    ensures Words(w) == [w]
  {
    RunOfWord(w, "");
    assert w + "" == w && w[..|w|] == w;
  }

  // ---------------------------------------------------------------------------------------------
  // The theorems

  /** Sanitising is joining the words of the lowered name, up to the two hash fallbacks. */
  lemma SanitizeIsFinalizedJoin(cd: Codec, name: string)
    ensures Sanitize(cd, name) == Finalize(cd, Join(Words(Lower(cd, name))), name)
    ensures Join(Words(Lower(cd, name))) == "" <==> Words(Lower(cd, name)) == []
  {
    var s := Lower(cd, name);
    TrimmedBaseIsJoin(s);
    WordsAreWords(s);
    if Words(s) != [] { JoinIsLabel(Words(s)); }
  }

  /** A name that keeps no character at all becomes its hash behind an "x". */
  lemma NothingKeptIsHashed(cd: Codec, name: string)
    requires Words(Lower(cd, name)) == []
    ensures Sanitize(cd, name) == "x-" + cd.shortHash(name)
  {
    SanitizeIsFinalizedJoin(cd, name);
  }

  lemma UntruncatedIsJoin(cd: Codec, name: string)
    requires Untruncated(cd, name)
    ensures Sanitize(cd, name) == Join(Words(Lower(cd, name)))
  {
    SanitizeIsFinalizedJoin(cd, name);
  }

  lemma {:induction false} CutLabel(s: string, n: nat)
    requires IsLabel(s) && 2 <= n <= |s|
    ensures IsLabel(TrimRight(s[..n]))
    ensures TrimRight(s[..n]) == s[..n] || TrimRight(s[..n]) == s[..n - 1]
  {
    var p := s[..n];
    if p[n - 1] == '-' {
      assert p[..n - 1] == s[..n - 1];
      assert s[n - 1] == '-';
      assert s[n - 2] != '-';
    }
  }

  lemma HashIsLabel(cd: Codec, name: string)
    ensures IsLabel(cd.shortHash(name))
  {
    var h := cd.shortHash(name);
    forall i | 0 <= i < |h| ensures IsAlphaNum(h[i]) { assert IsHex(h[i]); }
  }

  /** Truncation keeps 241 or 242 characters, so neither the "x" base nor the bare hash is ever used. */
  lemma TruncatedShape(cd: Codec, name: string)
    requires |Join(Words(Lower(cd, name)))| > MAX_NAME_LENGTH
    ensures var j := Join(Words(Lower(cd, name)));
            exists n :: 241 <= n <= 242 && IsLabel(j[..n]) && Sanitize(cd, name) == j[..n] + "-" + cd.shortHash(name)
    ensures 252 <= |Sanitize(cd, name)| <= 253
    ensures IsLabel(Sanitize(cd, name))
  {
    var j := Join(Words(Lower(cd, name)));
    SanitizeIsFinalizedJoin(cd, name);
    WordsAreWords(Lower(cd, name));
    JoinIsLabel(Words(Lower(cd, name)));
    var trimmed := TrimRight(j[..253]);
    CutLabel(j, 253);
    var n := |TrimRight(trimmed[..242])|;
    assert trimmed[..242] == j[..242];
    CutLabel(j, 242);
    assert TrimRight(trimmed[..242]) == j[..n];
    HashIsLabel(cd, name);
    LabelJoin(j[..n], cd.shortHash(name));
    assert Sanitize(cd, name) == j[..n] + "-" + cd.shortHash(name);
  }

  /** Every result is a label that fits Kubernetes, whatever the input. */
  lemma SanitizeShape(cd: Codec, name: string)
    ensures IsLabel(Sanitize(cd, name))
    ensures |Sanitize(cd, name)| <= MAX_NAME_LENGTH
  {
    var s := Lower(cd, name);
    SanitizeIsFinalizedJoin(cd, name);
    if Words(s) == [] {
      HashIsLabel(cd, name);
      LabelJoin("x", cd.shortHash(name));
    } else if |Join(Words(s))| > MAX_NAME_LENGTH {
      TruncatedShape(cd, name);
    } else {
      WordsAreWords(s);
      JoinIsLabel(Words(s));
    }
  }

  /** A name is left alone exactly when it is already a label that fits. */
  lemma SanitizeFixedPoints(cd: Codec, name: string)
    ensures Sanitize(cd, name) == name <==> IsLabel(name) && |name| <= MAX_NAME_LENGTH
  {
    SanitizeShape(cd, name);
    if IsLabel(name) && |name| <= MAX_NAME_LENGTH {
      assert Lower(cd, name) == name;
      JoinWordsOfLabel(name);
      SanitizeIsFinalizedJoin(cd, name);
    }
  }

  /** The characters of a result, spelled out. */
  lemma ResultCharacters(cd: Codec, name: string, i: nat)
    requires i < |Sanitize(cd, name)|
    ensures var c := Sanitize(cd, name)[i]; 'a' <= c <= 'z' || '0' <= c <= '9' || c == '-'
  {
    SanitizeShape(cd, name);
  }

  /** A name of one run of letters and digits is its lowered form, if it fits. */
  lemma PlainNamesAreLowered(cd: Codec, name: string)
    requires 1 <= |name| <= 253
    requires forall i :: 0 <= i < |name| ==>
               'a' <= cd.lower(name[i]) <= 'z' || '0' <= cd.lower(name[i]) <= '9'
    ensures |Sanitize(cd, name)| == |name| && forall i :: 0 <= i < |name| ==> Sanitize(cd, name)[i] == cd.lower(name[i])
  {
    var s := Lower(cd, name);
    assert IsWord(s);
    WordsOfWord(s);
    UntruncatedIsJoin(cd, name);
  }

  lemma SanitizeIdempotent(cd: Codec, name: string)
    ensures Sanitize(cd, Sanitize(cd, name)) == Sanitize(cd, name)
  {
    SanitizeShape(cd, name);
    SanitizeFixedPoints(cd, Sanitize(cd, name));
  }

  /** Two untruncated names collide exactly when their lowered forms have the same words. */
  lemma CollisionIsSameWords(cd: Codec, a: string, b: string)
    requires Untruncated(cd, a) && Untruncated(cd, b)
    ensures Sanitize(cd, a) == Sanitize(cd, b) <==> Words(Lower(cd, a)) == Words(Lower(cd, b))
  {
    UntruncatedIsJoin(cd, a);
    UntruncatedIsJoin(cd, b);
    WordsAreWords(Lower(cd, a));
    WordsAreWords(Lower(cd, b));
    if Sanitize(cd, a) == Sanitize(cd, b) {
      WordsOfJoin(Words(Lower(cd, a)));
      WordsOfJoin(Words(Lower(cd, b)));
    }
  }

  lemma {:induction false} WordsOfJoin(ws: seq<string>)
    requires forall i :: 0 <= i < |ws| ==> IsWord(ws[i])
    ensures Words(Join(ws)) == ws
  {
    if |ws| == 1 {
      WordsOfWord(ws[0]);
    } else if |ws| > 1 {
      WordsSplit(ws[0], Join(ws[1..]));
      WordsOfWord(ws[0]);
      WordsOfJoin(ws[1..]);
    }
  }
}
