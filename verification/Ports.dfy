/**
  A port printed into a resource name, sanitised, and parsed back
  (internal/transform/protocol/tcp_udp.go).
 */
module Ports {
  import opened Results
  import opened Names

  predicate IsDigit(c: char) { '0' <= c <= '9' }

  predicate AllDigits(s: string) { forall i :: 0 <= i < |s| ==> IsDigit(s[i]) }

  function Digit(d: nat): (c: char)
    requires d < 10
    ensures IsDigit(c) && DigitValue(c) == d
  {
    ('0' as int + d) as char
  }

  function DigitValue(c: char): nat
    requires IsDigit(c)
  {
    c as int - '0' as int
  }

  /** Decimal printing, as `%d` does it for a non-negative number. */
  function PrintNat(n: nat): (s: string)
    ensures s != "" && AllDigits(s)
  {
    if n < 10 then [Digit(n)] else PrintNat(n / 10) + [Digit(n % 10)]
  }

  function ParseDigits(s: string): nat
    requires AllDigits(s)
  {
    if s == "" then 0 else 10 * ParseDigits(s[..|s| - 1]) + DigitValue(s[|s| - 1])
  }

  /** strconv.ParseInt in base 10: an optional sign, then digits, within [-limit, limit). */
  function ParseInt(s: string, limit: nat): Option<int> {
    var signed := s != "" && (s[0] == '-' || s[0] == '+');
    var body := if signed then s[1..] else s;
    if body == "" || !AllDigits(body) then None
    else
      var magnitude: int := ParseDigits(body);
      var v := if signed && s[0] == '-' then -magnitude else magnitude;
      if 0 - limit <= v < limit then Some(v) else None
  }

  function ParsePort(s: string): (r: Option<int>)
    ensures r.Some? ==> 1 <= r.value <= 65535
  {
    match ParseInt(s, 0x8000_0000)
    case Some(v) => if v <= 0 || v > 65535 then None else Some(v)
    case None => None
  }

  /** The index of the last dash, or -1. */
  function LastDash(s: string): (i: int)
    ensures -1 <= i < |s|
    ensures i >= 0 ==> s[i] == '-'
    ensures forall j :: i < j < |s| ==> s[j] != '-'
  {
    if s == "" then -1
    else if s[|s| - 1] == '-' then |s| - 1
    else LastDash(s[..|s| - 1])
  }

  /** The port a route reads back from the name of its Service. */
  function DerivePort(kubeName: string): Option<int> {
    var i := LastDash(kubeName);
    if i <= 0 || i == |kubeName| - 1 then None else ParsePort(kubeName[i + 1..])
  }

  /** The text sanitised into the name of the Service generated for `name` at `port`. */
  function PortedName(name: string, port: nat): string {
    name + "-" + PrintNat(port)
  }

  // ---------------------------------------------------------------------------------------------

  lemma {:induction false} PrintParse(n: nat)
    ensures ParseDigits(PrintNat(n)) == n
  {
    if n >= 10 {
      PrintParse(n / 10);
      var s := PrintNat(n);
      assert s[..|s| - 1] == PrintNat(n / 10);
    }
  }

  /** Printing is decimal. */
  lemma PrintsDecimal(n: nat, d: nat)
    requires d < 10
    ensures n > 0 ==> PrintNat(10 * n + d) == PrintNat(n) + PrintNat(d)
    ensures PrintNat(d) == ["0123456789"[d]]
  {
    assert "0123456789"[d] == Digit(d);
  }

  lemma ParsePrintedPort(port: nat)
    requires 1 <= port <= 65535
    ensures ParsePort(PrintNat(port)) == Some(port)
  {
    PrintParse(port);
    assert IsDigit(PrintNat(port)[0]);
  }

  lemma PrintNatIsWord(n: nat)
    ensures IsWord(PrintNat(n))
  {
    var s := PrintNat(n);
    forall i | 0 <= i < |s| ensures IsAlphaNum(s[i]) { assert IsDigit(s[i]); }
  }

  lemma {:induction false} JoinSnoc(ws: seq<string>, w: string)
    ensures Join(ws + [w]) == if ws == [] then w else Join(ws) + "-" + w
  {
    if ws == [] {
      assert ws + [w] == [w];
    } else {
      assert (ws + [w])[1..] == ws[1..] + [w];
      JoinSnoc(ws[1..], w);
      if |ws| == 1 {
        assert Join(ws + [w]) == ws[0] + "-" + w;
      } else {
        assert Join(ws + [w]) == ws[0] + "-" + (Join(ws[1..]) + "-" + w);
      }
    }
  }

  /** The words of the lowered generated name: those of the service name, then the port. */
  lemma PortedWords(cd: Codec, name: string, port: nat)
    ensures Words(Lower(cd, PortedName(name, port))) == Words(Lower(cd, name)) + [PrintNat(port)]
  {
    var p := PrintNat(port);
    PrintNatIsWord(port);
    assert Lower(cd, PortedName(name, port)) == Lower(cd, name) + "-" + p;
    WordsSplit(Lower(cd, name), p);
    WordsOfWord(p);
  }

  lemma DeriveAfterDash(base: string, w: string)
    requires base != "" && w != "" && forall i :: 0 <= i < |w| ==> w[i] != '-'
    ensures DerivePort(base + "-" + w) == ParsePort(w)
  {
    var s := base + "-" + w;
    assert forall j :: |base| < j < |s| ==> s[j] == w[j - |base| - 1];
    assert s[|base|] == '-';
    assert LastDash(s) == |base|;
    assert s[|base| + 1..] == w;
  }

  /**
    The port survives printing, sanitising and parsing exactly when the service name keeps at least
    one character; a name that keeps none leaves the bare port, which has no dash to parse after.
   */
  lemma PortRoundTrip(cd: Codec, name: string, port: nat)
    requires 1 <= port <= 65535
    requires Untruncated(cd, PortedName(name, port))
    ensures DerivePort(Sanitize(cd, PortedName(name, port))) == Some(port) <==> Words(Lower(cd, name)) != []
    ensures Words(Lower(cd, name)) == [] ==> DerivePort(Sanitize(cd, PortedName(name, port))) == None
  {
    var ws, p := Words(Lower(cd, name)), PrintNat(port);
    PortedWords(cd, name, port);
    UntruncatedIsJoin(cd, PortedName(name, port));
    JoinSnoc(ws, p);
    PrintNatIsWord(port);
    if ws == [] {
      assert forall j :: 0 <= j < |p| ==> IsAlphaNum(p[j]);
    } else {
      WordsAreWords(Lower(cd, name));
      JoinIsLabel(ws);
      DeriveAfterDash(Join(ws), p);
      ParsePrintedPort(port);
    }
  }

  /** Once the name is truncated the route reads the hash instead of the port. */
  lemma TruncatedPort(cd: Codec, name: string, port: nat)
    requires !Untruncated(cd, PortedName(name, port))
    ensures DerivePort(Sanitize(cd, PortedName(name, port))) == ParsePort(cd.shortHash(PortedName(name, port)))
  {
    var full := PortedName(name, port);
    PortedWords(cd, name, port);
    TruncatedShape(cd, full);
    var j, h := Join(Words(Lower(cd, full))), cd.shortHash(full);
    var n :| 241 <= n <= 242 && IsLabel(j[..n]) && Sanitize(cd, full) == j[..n] + "-" + h;
    forall i | 0 <= i < |h| ensures h[i] != '-' { assert IsHex(h[i]); }
    DeriveAfterDash(j[..n], h);
  }

  /** Hence the port is lost for some input: a digest of digits makes the route point elsewhere. */
  lemma TruncatedPortIsWrong()
    ensures exists cd: Codec, name: string ::
              DerivePort(Sanitize(cd, PortedName(name, 443))) == Some(80)
  {
    var hash: string -> string := _ => "0000000080";
    var cd := Codec(c => c, hash);
    var name := seq(300, _ => 'a');
    assert IsWord(name);
    WordsOfWord(name);
    assert Lower(cd, name) == name;
    PortedWords(cd, name, 443);
    JoinSnoc([name], PrintNat(443));
    TruncatedPort(cd, name, 443);
    assert cd.shortHash(PortedName(name, 443)) == "0000000080";
    DigestReadsAsEighty();
  }

  lemma DigestReadsAsEighty()
    ensures ParsePort("0000000080") == Some(80)
  {
    var z := "0000000080";
    assert z[..9] == "000000008" && z[..9][..8] == "00000000";
    assert ParseDigits("00000000") == 0 by { ZerosAreZero(8); assert seq(8, _ => '0') == "00000000"; }
    assert ParseDigits("000000008") == 8 by { assert "000000008"[..8] == "00000000"; }
    assert ParseDigits(z) == 80;
  }

  lemma {:induction false} ZerosAreZero(n: nat)
    ensures AllDigits(seq(n, _ => '0')) && ParseDigits(seq(n, _ => '0')) == 0
  {
    if n > 0 {
      ZerosAreZero(n - 1);
      assert seq(n, _ => '0')[..n - 1] == seq(n - 1, _ => '0');
    }
  }

  /** Untruncated generated names that coincide were generated for the same port. */
  lemma EqualNamesEqualPorts(cd: Codec, a: string, p: nat, b: string, q: nat)
    requires Untruncated(cd, PortedName(a, p)) && Untruncated(cd, PortedName(b, q))
    requires Sanitize(cd, PortedName(a, p)) == Sanitize(cd, PortedName(b, q))
    ensures p == q && Words(Lower(cd, a)) == Words(Lower(cd, b))
  {
    CollisionIsSameWords(cd, PortedName(a, p), PortedName(b, q));
    PortedWords(cd, a, p);
    PortedWords(cd, b, q);
    var us, vs := Words(Lower(cd, a)) + [PrintNat(p)], Words(Lower(cd, b)) + [PrintNat(q)];
    assert us[|us| - 1] == PrintNat(p) && vs[|vs| - 1] == PrintNat(q);
    assert us[..|us| - 1] == Words(Lower(cd, a)) && vs[..|vs| - 1] == Words(Lower(cd, b));
    PrintParse(p);
    PrintParse(q);
  }
}
