/**
 Endpoints as text: AppendAddrStr in internal/protocol/messages_peer.go and the
 library routines that read it back there (net.SplitHostPort, strconv.Atoi,
 net.ParseIP). IPv6 text stays abstract.
 */
module AddressText {
  import opened Base

  const DOT: byte := 46
  const COLON: byte := 58
  const OPEN: byte := 91
  const CLOSE: byte := 93
  const MINUS: byte := 45
  const PLUS: byte := 43
  const PERCENT: byte := 37
  const ZERO: byte := 48
  const INT64: int := 0x8000_0000_0000_0000

  // ── Decimal numbers ────────────────────────────────────────────

  predicate IsDigit(c: byte) { 48 <= c <= 57 }

  predicate AllDigits(s: Bytes) { forall i :: 0 <= i < |s| ==> IsDigit(s[i]) }

  function Digits(n: nat): (s: Bytes)
    ensures s != [] && AllDigits(s)
  {
    if n < 10 then [48 + n] else Digits(n / 10) + [48 + n % 10]
  }

  function Value(s: Bytes): int { if s == [] then 0 else 10 * Value(s[..|s| - 1]) + s[|s| - 1] as int - 48 }

  /** strconv.AppendInt in base 10. */
  function Decimal(n: int): Bytes { if n < 0 then [MINUS] + Digits(-n) else Digits(n) }

  /** strconv.Atoi. */
  function Atoi(s: Bytes): Option<int> {
    var body := if s != [] && (s[0] == MINUS || s[0] == PLUS) then s[1..] else s;
    if body == [] || !AllDigits(body) then None
    else if s[0] == MINUS then (if Value(body) <= INT64 then Some(-Value(body)) else None)
    else if Value(body) < INT64 then Some(Value(body)) else None
  }

  lemma {:induction false} ValueOfDigits(n: nat)
    ensures Value(Digits(n)) == n && (Digits(n)[0] == ZERO <==> n == 0) && (n < 10 ==> |Digits(n)| == 1)
  {
    if n >= 10 {
      ValueOfDigits(n / 10);
      var s := Digits(n);
      assert s[..|s| - 1] == Digits(n / 10);
    } else {
      assert Digits(n)[..0] == [];
    }
  }

  /** Reading a decimal undoes writing it, over all of int64. */
  lemma AtoiUndoesDecimal(n: int)
    requires -INT64 <= n < INT64
    ensures Atoi(Decimal(n)) == Some(n)
  {
    if n < 0 {
      ValueOfDigits(-n);
      assert Decimal(n)[1..] == Digits(-n);
    } else {
      ValueOfDigits(n);
      assert IsDigit(Digits(n)[0]);
    }
  }

  // ── Dotted IPv4 ────────────────────────────────────────────────

  function Index(s: Bytes, c: byte): (i: nat)
    ensures i <= |s| && (i < |s| ==> s[i] == c) && forall j :: 0 <= j < i ==> s[j] != c
  {
    if s == [] || s[0] == c then 0
    else
      var i := Index(s[1..], c);
      assert forall j :: 1 <= j <= i ==> s[j] == s[1..][j - 1];
      i + 1
  }

  function Fields(s: Bytes): seq<Bytes>
    decreases |s|
  {
    var i := Index(s, DOT);
    if i == |s| then [s] else [s[..i]] + Fields(s[i + 1..])
  }

  /** A field of a dotted address: no leading zero, at most 255. */
  predicate IsOctet(s: Bytes) { s != [] && AllDigits(s) && (|s| == 1 || s[0] != ZERO) && 0 <= Value(s) <= 255 }

  function ParseDotted(s: Bytes): Option<Ip4> {
    var f := Fields(s);
    if |f| == 4 && IsOctet(f[0]) && IsOctet(f[1]) && IsOctet(f[2]) && IsOctet(f[3])
    then Some(Ip4(Value(f[0]), Value(f[1]), Value(f[2]), Value(f[3]))) else None
  }

  function Dotted(v: Ip4): Bytes {
    Digits(v.a) + [DOT] + (Digits(v.b) + [DOT] + (Digits(v.c) + [DOT] + Digits(v.d)))
  }

  lemma FieldsOf(a: Bytes, rest: Bytes)
    requires AllDigits(a)
    ensures Fields(a + [DOT] + rest) == [a] + Fields(rest)
  {
    var s := a + [DOT] + rest;
    assert forall j :: 0 <= j < |a| ==> s[j] == a[j];
    assert s[|a|] == DOT && s[..|a|] == a && s[|a| + 1..] == rest;
    assert Index(s, DOT) == |a|;
  }

  lemma LastField(a: Bytes)
    requires AllDigits(a)
    ensures Fields(a) == [a]
  {
    assert Index(a, DOT) == |a|;
  }

  lemma OctetOfDigits(n: byte)
    ensures IsOctet(Digits(n)) && Value(Digits(n)) == n
  {
    ValueOfDigits(n);
  }

  lemma FieldsOfTwo(c: Bytes, d: Bytes)
    requires AllDigits(c) && AllDigits(d)
    ensures Fields(c + [DOT] + d) == [c, d]
  {
    LastField(d);
    FieldsOf(c, d);
  }

  lemma FieldsOfFour(a: Bytes, b: Bytes, c: Bytes, d: Bytes)
    requires AllDigits(a) && AllDigits(b) && AllDigits(c) && AllDigits(d)
    ensures Fields(a + [DOT] + (b + [DOT] + (c + [DOT] + d))) == [a] + ([b] + [c, d])
  {
    FieldsOfTwo(c, d);
    FieldsOf(b, c + [DOT] + d);
    FieldsOf(a, b + [DOT] + (c + [DOT] + d));
  }

  lemma ParseUndoesDotted(v: Ip4)
    ensures ParseDotted(Dotted(v)) == Some(v)
  {
    OctetOfDigits(v.a);
    OctetOfDigits(v.b);
    OctetOfDigits(v.c);
    OctetOfDigits(v.d);
    FieldsOfFour(Digits(v.a), Digits(v.b), Digits(v.c), Digits(v.d));
  }

  /** Digits without a needless zero in front are the decimal of their value. */
  lemma {:induction false} CanonicalDigits(s: Bytes)
    requires s != [] && AllDigits(s) && (|s| == 1 || s[0] != ZERO)
    ensures Value(s) >= 0 && s == Digits(Value(s)) && (s[0] != ZERO ==> Value(s) > 0)
  {
    var n := |s| - 1;
    assert s == s[..n] + [s[n]];
    if n == 0 {
      assert s[..0] == [];
    } else {
      CanonicalDigits(s[..n]);
    }
  }

  function Join(fs: seq<Bytes>): Bytes
    requires fs != []
  {
    if |fs| == 1 then fs[0] else fs[0] + [DOT] + Join(fs[1..])
  }

  lemma {:induction false} FieldsJoin(s: Bytes)
    ensures Fields(s) != [] && Join(Fields(s)) == s
    decreases |s|
  {
    var i := Index(s, DOT);
    if i < |s| {
      FieldsJoin(s[i + 1..]);
      JoinMore(s[..i], Fields(s[i + 1..]));
      CutAt(s, i);
    }
  }

  lemma JoinMore(f: Bytes, rest: seq<Bytes>)
    requires rest != []
    ensures Join([f] + rest) == f + [DOT] + Join(rest)
  {
    assert ([f] + rest)[1..] == rest;
  }

  lemma CutAt(s: Bytes, i: nat)
    requires i < |s|
    ensures s == s[..i] + [s[i]] + s[i + 1..]
  {
  }

  /** Main theorem: exactly the dotted forms are read as IPv4 addresses; leading zeros, missing or extra
      fields and numbers above 255 are not. */
  lemma ParseIffDotted(s: Bytes, v: Ip4)
    ensures ParseDotted(s) == Some(v) <==> s == Dotted(v)
  {
    ParseUndoesDotted(v);
    if ParseDotted(s) == Some(v) {
      var f := Fields(s);
      CanonicalDigits(f[0]);
      CanonicalDigits(f[1]);
      CanonicalDigits(f[2]);
      CanonicalDigits(f[3]);
      FieldsJoin(s);
      JoinFour(f);
    }
  }

  lemma JoinFour(f: seq<Bytes>)
    requires |f| == 4
    ensures Join(f) == f[0] + [DOT] + (f[1] + [DOT] + (f[2] + [DOT] + f[3]))
  {
    assert f[1..][1..] == f[2..] && f[2..][1..] == f[3..] && Join(f[3..]) == f[3];
    assert Join(f[2..]) == f[2] + [DOT] + f[3];
  }

  // ── Endpoints ──────────────────────────────────────────────────

  /** An address as net.IP sees it: IPv4, or anything else. */
  datatype Ip = V4(v4: Ip4) | Other(bytes: Bytes)

  datatype Endpoint = Endpoint(ip: Ip, port: int)

  /** How addresses other than IPv4 are written and read is not modelled. */
  datatype Text6 = Text6(write: Bytes -> Bytes, read: Bytes -> Option<Bytes>)

  /** AppendAddrStr. */
  function AddrText(t: Text6, e: Endpoint): Bytes {
    if e.ip.V4? then Dotted(e.ip.v4) + [COLON] + Decimal(e.port)
    else [OPEN] + t.write(e.ip.bytes) + [CLOSE, COLON] + Decimal(e.port)
  }

  function LastIndex(s: Bytes, c: byte): (i: int)
    ensures -1 <= i < |s| && (i >= 0 ==> s[i] == c) && forall j :: i < j < |s| ==> s[j] != c
  {
    if s == [] then -1
    else if s[|s| - 1] == c then |s| - 1
    else LastIndex(s[..|s| - 1], c)
  }

  /** net.SplitHostPort: host and port, or None for its errors. */
  function SplitHostPort(s: Bytes): Option<(Bytes, Bytes)> {
    var i := LastIndex(s, COLON);
    if i < 0 then None
    else if s[0] == OPEN then
      var end := Index(s, CLOSE);
      if end == |s| || end + 1 != i || OPEN in s[1..] || CLOSE in s[end + 1..] then None
      else Some((s[1..end], s[i + 1..]))
    else if COLON in s[..i] || OPEN in s || CLOSE in s then None
    else Some((s[..i], s[i + 1..]))
  }

  /** net.ParseIP: the first of '.', ':' and '%' decides. */
  function ParseIP(t: Text6, s: Bytes): Option<Ip> {
    var d, c, p := Index(s, DOT), Index(s, COLON), Index(s, PERCENT);
    if d < c && d < p then
      var v := ParseDotted(s);
      if v.Some? then Some(V4(v.value)) else None
    else if c < d && c < p then
      var v := t.read(s);
      if v.Some? then Some(Other(v.value)) else None
    else None
  }

  /** How a decoded address field becomes an endpoint. */
  function ParseAddr(t: Text6, s: Bytes): Option<Endpoint> {
    var hp := SplitHostPort(s);
    if s == [] || hp.None? then None
    else
      var port := Atoi(hp.value.1);
      var ip := ParseIP(t, hp.value.0);
      if port.Some? && ip.Some? then Some(Endpoint(ip.value, port.value)) else None
  }

  predicate Numeric(s: Bytes) { forall i :: 0 <= i < |s| ==> IsDigit(s[i]) || s[i] == DOT || s[i] == MINUS }

  lemma DottedShape(v: Ip4)
    ensures Numeric(Dotted(v)) && Index(Dotted(v), DOT) < |Dotted(v)| && IsDigit(Dotted(v)[0])
  {
    var s := Dotted(v);
    assert s[0] == Digits(v.a)[0] && s[|Digits(v.a)|] == DOT;
  }

  lemma SplitNumeric(host: Bytes, port: Bytes)
    requires Numeric(host) && Numeric(port) && host != [] && IsDigit(host[0])
    ensures SplitHostPort(host + [COLON] + port) == Some((host, port))
  {
    var s := host + [COLON] + port;
    assert forall j :: |host| < j < |s| ==> s[j] == port[j - |host| - 1];
    assert s[|host|] == COLON && LastIndex(s, COLON) == |host|;
    assert s[0] == host[0] && s[..|host|] == host && s[|host| + 1..] == port;
    assert forall j :: 0 <= j < |host| ==> s[j] == host[j];
  }

  lemma ParseIPDotted(t: Text6, v: Ip4)
    ensures ParseIP(t, Dotted(v)) == Some(V4(v))
  {
    DottedShape(v);
    ParseUndoesDotted(v);
    var s := Dotted(v);
    assert Index(s, COLON) == |s| && Index(s, PERCENT) == |s|;
  }

  /** Main theorem: the text of an IPv4 endpoint reads back as that endpoint, for every port. */
  lemma ParseUndoesAddrText(t: Text6, e: Endpoint)
    requires e.ip.V4? && -INT64 <= e.port < INT64
    ensures ParseAddr(t, AddrText(t, e)) == Some(e) && AddrText(t, e) != []
  {
    DottedShape(e.ip.v4);
    SplitNumeric(Dotted(e.ip.v4), Decimal(e.port));
    AtoiUndoesDecimal(e.port);
    ParseIPDotted(t, e.ip.v4);
  }

  lemma {:induction false} DigitsLength(n: nat, k: nat)
    requires n < Pow10(k) && k > 0
    ensures |Digits(n)| <= k
  {
    if n >= 10 { DigitsLength(n / 10, k - 1); }
  }

  function Pow10(k: nat): nat { if k == 0 then 1 else 10 * Pow10(k - 1) }

  /** The text always fits its 16-bit length field. */
  lemma AddrTextShort(t: Text6, e: Endpoint)
    requires e.ip.V4? && -INT64 <= e.port < INT64
    ensures |AddrText(t, e)| <= 36
  {
    var v := e.ip.v4;
    assert Pow10(3) == 1000;
    DigitsLength(v.a, 3); DigitsLength(v.b, 3); DigitsLength(v.c, 3); DigitsLength(v.d, 3);
    assert Pow10(10) == 10_000_000_000;
    assert Pow10(19) == 1_000_000_000 * Pow10(10);
    DigitsLength(if e.port < 0 then -e.port else e.port, 19);
  }

  // ── The codec the peer list uses ───────────────────────────────

  datatype AddrCodec = AddrCodec(write: Endpoint -> Bytes, read: Bytes -> Option<Endpoint>)

  function TextCodec(t: Text6): AddrCodec { AddrCodec(e => AddrText(t, e), s => ParseAddr(t, s)) }

  predicate IsV4Endpoint(e: Endpoint) { e.ip.V4? && -INT64 <= e.port < INT64 }

  /** Endpoints read back, no text is an absent endpoint, and texts fit a 16-bit length. */
  ghost predicate Lawful(c: AddrCodec) {
    c.read([]) == None && forall e :: IsV4Endpoint(e) ==> c.read(c.write(e)) == Some(e) && |c.write(e)| < 0x1_0000
  }

  lemma TextCodecLawful(t: Text6)
    ensures Lawful(TextCodec(t))
  {
    var c := TextCodec(t);
    forall e | IsV4Endpoint(e) ensures c.read(c.write(e)) == Some(e) && |c.write(e)| < 0x1_0000 {
      ParseUndoesAddrText(t, e);
      AddrTextShort(t, e);
    }
  }
}
