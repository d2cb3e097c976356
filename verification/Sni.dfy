/** Extraction of the server name from the bytes of a TLS ClientHello, after
    sections 4.1.2, 4.2 and 5.1 of RFC 8446 and section 3 of RFC 6066. */
module Sni {
  import opened Prelude

  type Bytes = seq<Byte>

  const MAX_SNI_LEN: nat := 253

  /** No Rust slice is longer than this. */
  const ISIZE_MAX: nat := 0x7FFF_FFFF_FFFF_FFFF

  /** A cursor: every sum that is stored in one is below 2^64. */
  type Usize = n: nat | n < 0x1_0000_0000_0000_0000

  // ------------------------------------------------------------------- UTF-8

  predicate Continuation(b: Byte) {
    0x80 <= b <= 0xBF
  }

  /** The length of the well-formed UTF-8 sequence at the start of `s`, or 0
      (section 4 of RFC 3629). */
  function Utf8Unit(s: Bytes): (n: nat)
    ensures n <= |s| && (|s| > 0 && s[0] < 0x80 ==> n == 1)
  {
    if |s| >= 1 && s[0] < 0x80 then 1
    else if |s| >= 2 && 0xC2 <= s[0] <= 0xDF && Continuation(s[1]) then 2
    else if |s| >= 3 && 0xE0 <= s[0] <= 0xEF && Continuation(s[1]) && Continuation(s[2])
            && (s[0] == 0xE0 ==> s[1] >= 0xA0) && (s[0] == 0xED ==> s[1] <= 0x9F) then 3
    else if |s| >= 4 && 0xF0 <= s[0] <= 0xF4 && Continuation(s[1]) && Continuation(s[2]) && Continuation(s[3])
            && (s[0] == 0xF0 ==> s[1] >= 0x90) && (s[0] == 0xF4 ==> s[1] <= 0x8F) then 4
    else 0
  }

  predicate ValidUtf8(s: Bytes) {
    s == [] || (Utf8Unit(s) > 0 && ValidUtf8(s[Utf8Unit(s)..]))
  }

  /** A Unicode code point other than the surrogates. */
  type Scalar = c: int | 0 <= c < 0xD800 || 0xE000 <= c < 0x11_0000

  /** The bytes of a code point (section 3 of RFC 3629). */
  function EncodeScalar(c: Scalar): (b: Bytes)
    ensures 1 <= |b| <= 4
  {
    if c < 0x80 then [c]
    else if c < 0x800 then [0xC0 + c / 64, 0x80 + c % 64]
    else if c < 0x1_0000 then [0xE0 + c / 4096, 0x80 + c / 64 % 64, 0x80 + c % 64]
    else [0xF0 + c / 262144, 0x80 + c / 4096 % 64, 0x80 + c / 64 % 64, 0x80 + c % 64]
  }

  function EncodeUtf8(cs: seq<Scalar>): Bytes {
    if cs == [] then [] else EncodeScalar(cs[0]) + EncodeUtf8(cs[1..])
  }

  ghost predicate IsUtf8(s: Bytes) {
    exists cs: seq<Scalar> :: EncodeUtf8(cs) == s
  }

  lemma UnitOfScalar(c: Scalar, rest: Bytes)
    ensures Utf8Unit(EncodeScalar(c) + rest) == |EncodeScalar(c)|
  {
    if c >= 0x1_0000 {
      UnitOfFour(c, rest);
    } else if c >= 0x800 {
      UnitOfThree(c, rest);
    } else {
      var b := EncodeScalar(c);
      assert forall i :: 0 <= i < |b| ==> (b + rest)[i] == b[i];
    }
  }

  lemma UnitOfThree(c: Scalar, rest: Bytes)
    requires 0x800 <= c < 0x1_0000
    ensures Utf8Unit(EncodeScalar(c) + rest) == 3
  {
    var b := EncodeScalar(c);
    assert forall i :: 0 <= i < 3 ==> (b + rest)[i] == b[i];
  }

  lemma UnitOfFour(c: Scalar, rest: Bytes)
    requires c >= 0x1_0000
    ensures Utf8Unit(EncodeScalar(c) + rest) == 4
  {
    var b := EncodeScalar(c);
    assert forall i :: 0 <= i < 4 ==> (b + rest)[i] == b[i];
  }

  lemma ScalarOfUnit(s: Bytes) returns (c: Scalar)
    requires Utf8Unit(s) > 0
    ensures EncodeScalar(c) == s[..Utf8Unit(s)]
  {
    match Utf8Unit(s) {
      case 1 => c := s[0];
      case 2 => c := (s[0] as int - 0xC0) * 64 + (s[1] as int - 0x80);
      case 3 => c := ScalarOfThree(s);
      case _ => c := ScalarOfFour(s);
    }
  }

  lemma ScalarOfThree(s: Bytes) returns (c: Scalar)
    requires Utf8Unit(s) == 3
    ensures EncodeScalar(c) == s[..3]
  {
    c := (s[0] as int - 0xE0) * 4096 + (s[1] as int - 0x80) * 64 + (s[2] as int - 0x80);
    assert c / 64 == (s[0] as int - 0xE0) * 64 + (s[1] as int - 0x80);
  }

  lemma ScalarOfFour(s: Bytes) returns (c: Scalar)
    requires Utf8Unit(s) == 4
    ensures EncodeScalar(c) == s[..4]
  {
    var a, b, d, e := s[0] as int - 0xF0, s[1] as int - 0x80, s[2] as int - 0x80, s[3] as int - 0x80;
    var x := a * 64 + b;
    var y := x * 64 + d;
    c := y * 64 + e;
    Digits(a, b);
    Digits(x, d);
    Digits(y, e);
    DivideTwice(c);
  }

  lemma Digits(high: int, low: int)
    requires 0 <= low < 64
    ensures (high * 64 + low) / 64 == high && (high * 64 + low) % 64 == low
  {
  }

  lemma DivideTwice(c: int)
    ensures c / 4096 == c / 64 / 64 && c / 262144 == c / 64 / 64 / 64
  {
  }

  lemma {:induction false} EncodedIsValid(cs: seq<Scalar>)
    ensures ValidUtf8(EncodeUtf8(cs))
  {
    if cs != [] {
      var b, rest := EncodeScalar(cs[0]), EncodeUtf8(cs[1..]);
      EncodedIsValid(cs[1..]);
      UnitOfScalar(cs[0], rest);
      assert (b + rest)[|b|..] == rest;
    }
  }

  lemma {:induction false} ValidIsEncoded(s: Bytes) returns (cs: seq<Scalar>)
    requires ValidUtf8(s)
    ensures EncodeUtf8(cs) == s
  {
    if s == [] {
      cs := [];
    } else {
      var n := Utf8Unit(s);
      var c := ScalarOfUnit(s);
      var rest := ValidIsEncoded(s[n..]);
      cs := [c] + rest;
      assert cs[1..] == rest && s == s[..n] + s[n..];
    }
  }

  /** A name is accepted exactly if it has at most 253 bytes and encodes a sequence of
      code points. */
  lemma AcceptedExactly(name: Bytes)
    ensures Accepted(name) == if |name| <= 253 && IsUtf8(name) then Some(name) else None
  {
    if ValidUtf8(name) {
      var cs := ValidIsEncoded(name);
    }
    if IsUtf8(name) {
      var cs: seq<Scalar> :| EncodeUtf8(cs) == name;
      EncodedIsValid(cs);
    }
  }

  // ---------------------------------------------------------------- the parser

  /** What a walk over the names of one server_name extension ends with. */
  datatype NameSearch = Host(name: Bytes) | NoHost | Malformed

  function Accepted(name: Bytes): Option<Bytes> {
    if |name| <= MAX_SNI_LEN && ValidUtf8(name) then Some(name) else None
  }

  function SearchNames(buf: Bytes, q: nat, end: nat): NameSearch
    requires end <= |buf|
    decreases end - q
  {
    if q >= end then NoHost
    else if q + 3 > |buf| then Malformed
    else
      var nameEnd := q + 3 + U16(buf[q + 1], buf[q + 2]);
      if nameEnd > end then Malformed
      else if buf[q] == 0 then Host(buf[q + 3..nameEnd])
      else SearchNames(buf, nameEnd, end)
  }

  function SearchExtensions(buf: Bytes, p: nat, end: nat): Option<Bytes>
    requires end <= |buf|
    decreases end - p
  {
    if p >= end || p + 4 > |buf| then None
    else
      var extEnd := p + 4 + U16(buf[p + 2], buf[p + 3]);
      if extEnd > end then None
      else if U16(buf[p], buf[p + 1]) != 0 then SearchExtensions(buf, extEnd, end)
      else if p + 6 > |buf| then None
      else
        match SearchNames(buf, p + 6, extEnd)
        case Host(name) => Accepted(name)
        case NoHost => SearchExtensions(buf, extEnd, end)
        case Malformed => None
  }

  /** The bytes before the session id: record header, handshake header, version, random. */
  const FIXED: nat := 43

  /** Skips a field with a one- or two-byte length at `p`. */
  function Skip8(buf: Bytes, p: nat): Option<nat> {
    if p < |buf| then Some(p + 1 + buf[p]) else None
  }

  function Skip16(buf: Bytes, p: nat): Option<nat> {
    if p + 2 <= |buf| then Some(p + 2 + U16(buf[p], buf[p + 1])) else None
  }

  /** Where the extensions start: after the session id, the cipher suites and
      the compression methods, and after their own length. */
  function ExtensionsAt(buf: Bytes): Option<nat> {
    if |buf| < FIXED || buf[0] != 0x16 || buf[5] != 0x01 then None
    else
      var a := Skip8(buf, FIXED);
      if a.None? then None
      else
        var b := Skip16(buf, a.value);
        if b.None? then None
        else
          var c := Skip8(buf, b.value);
          if c.None? || c.value + 2 > |buf| then None else Some(c.value + 2)
  }

  /** The server name that `parse_sni` returns, if any. */
  function SniOf(buf: Bytes): Option<Bytes> {
    match ExtensionsAt(buf)
    case None => None
    case Some(p) =>
      if p < 2 || p > |buf| then None
      else
        var end := p + U16(buf[p - 2], buf[p - 1]);
        if end > |buf| then None else SearchExtensions(buf, p, end)
  }

  // The parser as written: cursors that advance over the buffer.

  method ReadU8(buf: Bytes, p: Usize) returns (v: Option<Byte>, p': Usize)
    requires |buf| <= ISIZE_MAX
    ensures v.Some? <==> p < |buf|
    ensures v.Some? ==> v.value == buf[p] && p' == p + 1
    ensures v.None? ==> p' == p
  {
    if p >= |buf| {
      return None, p;
    }
    return Some(buf[p]), p + 1;
  }

  method ReadU16(buf: Bytes, p: Usize) returns (v: Option<Usize>, p': Usize)
    requires |buf| <= ISIZE_MAX && p + 2 < 0x1_0000_0000_0000_0000
    ensures v.Some? <==> p + 2 <= |buf|
    ensures v.Some? ==> v.value == U16(buf[p], buf[p + 1]) && p' == p + 2
    ensures v.Some? ==> v.value == buf[p] as int * 256 + buf[p + 1] as int < 0x1_0000
    ensures v.None? ==> p' == p
  {
    var next: Usize := p + 2;
    if next > |buf| {
      return None, p;
    }
    return Some(U16(buf[p], buf[p + 1])), next;
  }

  /** Walks the names of one server_name extension. */
  method ParseNames(buf: Bytes, start: Usize, end: Usize) returns (r: NameSearch)
    requires start <= |buf| && end <= |buf| <= ISIZE_MAX
    ensures r == SearchNames(buf, start, end)
  {
    var q: Usize := start;
    while q < end
      invariant q <= |buf|
      invariant SearchNames(buf, q, end) == SearchNames(buf, start, end)
      decreases end - q
    {
      var nameType, q1 := ReadU8(buf, q);
      var nameLen, q2 := ReadU16(buf, q1);
      if nameType.None? || nameLen.None? {
        return Malformed;
      }
      var nameEnd: Usize := q2 + nameLen.value;
      if nameEnd > end {
        return Malformed;
      }
      if nameType.value == 0x00 {
        return Host(buf[q2..nameEnd]);
      }
      q := nameEnd;
    }
    return NoHost;
  }

  /** The record header, the handshake header, the version and the random. */
  method ReadFixed(buf: Bytes) returns (ok: bool)
    requires |buf| <= ISIZE_MAX
    ensures ok <==> |buf| >= FIXED && buf[0] == 0x16 && buf[5] == 0x01
  {
    var p: Usize := 0;
    var kind: Option<Byte>;
    kind, p := ReadU8(buf, p);
    if kind != Some(0x16) {
      return false;
    }
    p := p + 2;
    var len: Option<Usize>;
    len, p := ReadU16(buf, p);
    if len.None? {
      return false;
    }
    kind, p := ReadU8(buf, p);
    if kind != Some(0x01) {
      return false;
    }
    if p + 3 > |buf| {
      return false;
    }
    p := p + 3 + 2 + 32;
    return p <= |buf|;
  }

  /** Skips a field with a one-byte length. */
  method SkipShort(buf: Bytes, p: Usize) returns (next: Option<Usize>)
    requires |buf| <= ISIZE_MAX
    ensures next == Skip8(buf, p) && (next.Some? ==> next.value <= |buf| + 0x100)
  {
    var len, q := ReadU8(buf, p);
    if len.None? {
      return None;
    }
    return Some(q + len.value);
  }

  /** Skips a field with a two-byte length. */
  method SkipLong(buf: Bytes, p: Usize) returns (next: Option<Usize>)
    requires |buf| <= ISIZE_MAX && p <= |buf| + 0x100
    ensures next == Skip16(buf, p) && (next.Some? ==> next.value <= |buf| + 0x1_0000)
  {
    var len, q := ReadU16(buf, p);
    if len.None? {
      return None;
    }
    return Some(q + len.value);
  }

  /** The session id, the cipher suites, the compression methods, and the length of
      the extensions. */
  method SkipFields(buf: Bytes) returns (at: Option<Usize>, total: Usize)
    requires FIXED <= |buf| <= ISIZE_MAX && buf[0] == 0x16 && buf[5] == 0x01
    ensures at == ExtensionsAt(buf)
    ensures at.Some? ==> 2 <= at.value <= |buf| && total == U16(buf[at.value - 2], buf[at.value - 1]) < 0x1_0000
  {
    var next := SkipShort(buf, FIXED);
    if next.None? {
      return None, 0;
    }
    next := SkipLong(buf, next.value);
    if next.None? {
      return None, 0;
    }
    next := SkipShort(buf, next.value);
    if next.None? {
      return None, 0;
    }
    var len, p := ReadU16(buf, next.value);
    if len.None? {
      return None, 0;
    }
    return Some(p), len.value;
  }

  /** Every read is within the buffer, both cursors only move forward, and every
      cursor is a 64-bit `usize`, so no addition overflows. */
  method ParseSni(buf: Bytes) returns (r: Option<Bytes>)
    requires |buf| <= ISIZE_MAX
    ensures r == SniOf(buf)
  {
    var ok := ReadFixed(buf);
    if !ok {
      return None;
    }
    var at, total := SkipFields(buf);
    if at.None? {
      return None;
    }
    var p: Usize := at.value;
    var extEnd: Usize := p + total;
    if extEnd > |buf| {
      return None;
    }
    r := ParseExtensions(buf, p, extEnd);
  }

  method ParseExtensions(buf: Bytes, start: Usize, extEnd: Usize) returns (r: Option<Bytes>)
    requires start <= extEnd <= |buf| <= ISIZE_MAX
    ensures r == SearchExtensions(buf, start, extEnd)
  {
    var p: Usize := start;
    while p < extEnd
      invariant p <= |buf|
      invariant SearchExtensions(buf, p, extEnd) == SearchExtensions(buf, start, extEnd)
      decreases extEnd - p
    {
      var extType, p1 := ReadU16(buf, p);
      var dataLen, p2 := ReadU16(buf, p1);
      if extType.None? || dataLen.None? {
        return None;
      }
      var inner: Usize := p2 + dataLen.value;
      if inner > extEnd {
        return None;
      }
      if extType.value == 0x0000 {
        var listLen, q := ReadU16(buf, p2);
        if listLen.None? {
          return None;
        }
        var names := ParseNames(buf, q, inner);
        match names {
          case Host(name) =>
            if |name| > MAX_SNI_LEN {
              return None;
            }
            return if ValidUtf8(name) then Some(name) else None;
          case Malformed =>
            return None;
          case NoHost =>
        }
      }
      p := inner;
    }
    return None;
  }

  // ------------------------------------------------------------- the grammar

  /** A two-byte length, most significant byte first. */
  datatype Length = Length(hi: Byte, lo: Byte) {
    function Value(): nat { U16(hi, lo) }
    function Bytes(): Bytes { [hi, lo] }
  }

  /** The bytes of a length are its number, high byte first: the lengths in a
      well-formed hello are those of the fields they stand before. */
  lemma LengthExactly(l: Length, n: nat)
    ensures l.Value() == n <==> n < 65536 && l.Bytes() == [n / 256, n % 256]
  {
    U16Exactly(l.hi, l.lo, n);
    assert l.Bytes() == [l.hi, l.lo];
    if n < 65536 && l.Bytes() == [n / 256, n % 256] {
      assert l.Bytes()[0] == n / 256 && l.Bytes()[1] == n % 256;
    }
  }

  datatype Name = Name(kind: Byte, length: Length, bytes: Bytes)

  predicate WellFormedName(n: Name) {
    n.length.Value() == |n.bytes|
  }

  function EncodeName(n: Name): Bytes {
    [n.kind] + n.length.Bytes() + n.bytes
  }

  function EncodeNames(ns: seq<Name>): Bytes {
    if ns == [] then [] else EncodeName(ns[0]) + EncodeNames(ns[1..])
  }

  /** The first name of type host_name in a list. */
  function FirstHost(ns: seq<Name>): Option<Bytes> {
    if ns == [] then None
    else if ns[0].kind == 0 then Some(ns[0].bytes)
    else FirstHost(ns[1..])
  }

  /** What an extension holds: a list of server names after its length, or data
      of any other type. The parser does not look at the length of the list, nor
      at the `rest` that follows the first host name. */
  datatype Content =
    | ServerNames(listLength: Length, names: seq<Name>, rest: Bytes)
    | Other(data: Bytes)

  datatype Extension = Extension(kind: Length, length: Length, content: Content)

  function EncodeContent(c: Content): Bytes {
    match c
    case ServerNames(n, ns, rest) => n.Bytes() + (EncodeNames(ns) + rest)
    case Other(data) => data
  }

  /** The host name an extension gives, if any. */
  function HostIn(e: Extension): Option<Bytes> {
    if e.content.ServerNames? then FirstHost(e.content.names) else None
  }

  /** The lengths are right; server names are those of extension type 0, except
      that an extension of type 0 too short for a list counts as other data; and
      bytes that are not names may only follow a host name. */
  predicate WellFormedExtension(e: Extension) {
    && e.length.Value() == |EncodeContent(e.content)|
    && match e.content
       case ServerNames(_, ns, rest) =>
         && e.kind.Value() == 0
         && (forall n :: n in ns ==> WellFormedName(n))
         && (FirstHost(ns).None? ==> rest == [])
       case Other(data) => e.kind.Value() == 0 ==> |data| < 2
  }

  function EncodeExtension(e: Extension): Bytes {
    e.kind.Bytes() + e.length.Bytes() + EncodeContent(e.content)
  }

  function EncodeExtensions(es: seq<Extension>): Bytes {
    if es == [] then [] else EncodeExtension(es[0]) + EncodeExtensions(es[1..])
  }

  /** The first host name of the first server_name extension that has one. */
  function HostName(es: seq<Extension>): Option<Bytes> {
    if es == [] then None
    else if HostIn(es[0]).Some? then HostIn(es[0])
    else HostName(es[1..])
  }

  /** A ClientHello in its record. Of the fields before the session id only the
      record type and the message type matter. */
  datatype Hello = Hello(
    recordHeader: Bytes, handshakeHeader: Bytes,
    session: Bytes, ciphersLength: Length, ciphers: Bytes, compression: Bytes,
    extensionsLength: Length, extensions: seq<Extension>, rest: Bytes)

  predicate WellFormedHello(h: Hello) {
    && |h.recordHeader| == 4 && |h.handshakeHeader| == 37
    && |h.session| < 0x100 && |h.compression| < 0x100
    && h.ciphersLength.Value() == |h.ciphers|
    && (forall e :: e in h.extensions ==> WellFormedExtension(e))
    && h.extensionsLength.Value() == |EncodeExtensions(h.extensions)| + |h.rest|
    && (HostName(h.extensions).None? ==> h.rest == [])
  }

  function EncodeHead(h: Hello): Bytes
    requires WellFormedHello(h)
  {
    [0x16] + h.recordHeader + [0x01] + h.handshakeHeader
    + [|h.session|] + h.session
    + h.ciphersLength.Bytes() + h.ciphers
    + [|h.compression|] + h.compression
    + h.extensionsLength.Bytes()
  }

  function Encode(h: Hello): Bytes
    requires WellFormedHello(h)
  {
    EncodeHead(h) + (EncodeExtensions(h.extensions) + h.rest)
  }

  function Found(es: seq<Extension>): Option<Bytes> {
    match HostName(es)
    case Some(name) => Accepted(name)
    case None => None
  }

  /** The name a hello asks for: its first host name, if it is an acceptable one. */
  function Requested(h: Hello): Option<Bytes> {
    Found(h.extensions)
  }

  // ------------------------------------------------------ bytes at a position

  /** The bytes `b` are in `buf` at position `p`. */
  predicate At(buf: Bytes, p: nat, b: Bytes) {
    p + |b| <= |buf| && forall i :: 0 <= i < |b| ==> b[i] == buf[p + i]
  }

  lemma AtSplit(buf: Bytes, p: nat, a: Bytes, b: Bytes)
    requires At(buf, p, a + b)
    ensures At(buf, p, a) && At(buf, p + |a|, b)
  {
    forall i | 0 <= i < |a| ensures a[i] == buf[p + i] {
      assert (a + b)[i] == a[i];
    }
    forall i | 0 <= i < |b| ensures b[i] == buf[p + |a| + i] {
      assert (a + b)[|a| + i] == b[i];
    }
  }

  lemma Assoc(a: Bytes, b: Bytes, c: Bytes)
    ensures a + b + c == a + (b + c)
  {
  }

  lemma AtByte(buf: Bytes, p: nat, x: Byte)
    requires At(buf, p, [x])
    ensures p < |buf| && buf[p] == x
  {
    assert [x][0] == x;
  }

  lemma AtLength(buf: Bytes, p: nat, l: Length)
    requires At(buf, p, l.Bytes())
    ensures p + 2 <= |buf| && U16(buf[p], buf[p + 1]) == l.Value()
  {
    assert l.Bytes()[0] == l.hi && l.Bytes()[1] == l.lo;
  }

  // ------------------------------------------------------------ completeness

  lemma NameAt(buf: Bytes, q: nat, n: Name)
    requires WellFormedName(n) && At(buf, q, EncodeName(n))
    ensures q + 3 + |n.bytes| <= |buf| && buf[q] == n.kind
    ensures U16(buf[q + 1], buf[q + 2]) == |n.bytes|
    ensures buf[q + 3..q + 3 + |n.bytes|] == n.bytes
  {
    AtSplit(buf, q, [n.kind] + n.length.Bytes(), n.bytes);
    AtSplit(buf, q, [n.kind], n.length.Bytes());
    AtByte(buf, q, n.kind);
    AtLength(buf, q + 1, n.length);
  }

  function Outcome(found: Option<Bytes>): NameSearch {
    match found
    case Some(name) => Host(name)
    case None => NoHost
  }

  /** One name: it decides, or the search goes on behind it. */
  lemma NameComplete(buf: Bytes, q: nat, n: Name, end: nat)
    requires WellFormedName(n) && At(buf, q, EncodeName(n)) && q + |EncodeName(n)| <= end <= |buf|
    ensures SearchNames(buf, q, end)
            == if n.kind == 0 then Host(n.bytes) else SearchNames(buf, q + |EncodeName(n)|, end)
  {
    NameAt(buf, q, n);
  }

  lemma PeelName(buf: Bytes, q: nat, ns: seq<Name>, rest: Bytes)
    requires ns != [] && At(buf, q, EncodeNames(ns) + rest)
    ensures At(buf, q, EncodeName(ns[0])) && At(buf, q + |EncodeName(ns[0])|, EncodeNames(ns[1..]) + rest)
    ensures |EncodeNames(ns)| == |EncodeName(ns[0])| + |EncodeNames(ns[1..])|
  {
    Assoc(EncodeName(ns[0]), EncodeNames(ns[1..]), rest);
    AtSplit(buf, q, EncodeName(ns[0]), EncodeNames(ns[1..]) + rest);
  }

  lemma {:induction false} NamesComplete(buf: Bytes, q: nat, ns: seq<Name>, rest: Bytes, end: nat)
    requires forall n :: n in ns ==> WellFormedName(n)
    requires At(buf, q, EncodeNames(ns) + rest) && end == q + |EncodeNames(ns)| + |rest|
    requires FirstHost(ns).None? ==> rest == []
    ensures SearchNames(buf, q, end) == Outcome(FirstHost(ns))
    decreases |ns|
  {
    if ns != [] {
      PeelName(buf, q, ns, rest);
      NameComplete(buf, q, ns[0], end);
      if ns[0].kind != 0 {
        assert FirstHost(ns) == FirstHost(ns[1..]);
        NamesComplete(buf, q + |EncodeName(ns[0])|, ns[1..], rest, end);
      }
    }
  }

  lemma ExtensionAt(buf: Bytes, p: nat, e: Extension)
    requires e.length.Value() == |EncodeContent(e.content)| && At(buf, p, EncodeExtension(e))
    ensures p + 4 + |EncodeContent(e.content)| <= |buf| && At(buf, p + 4, EncodeContent(e.content))
    ensures U16(buf[p], buf[p + 1]) == e.kind.Value()
    ensures U16(buf[p + 2], buf[p + 3]) == |EncodeContent(e.content)|
  {
    AtSplit(buf, p, e.kind.Bytes() + e.length.Bytes(), EncodeContent(e.content));
    AtSplit(buf, p, e.kind.Bytes(), e.length.Bytes());
    AtLength(buf, p, e.kind);
    AtLength(buf, p + 2, e.length);
  }

  /** The names of a server_name extension whose content is at `p`. */
  lemma ServerNamesComplete(buf: Bytes, p: nat, c: Content)
    requires c.ServerNames? && (forall n :: n in c.names ==> WellFormedName(n))
    requires FirstHost(c.names).None? ==> c.rest == []
    requires At(buf, p, EncodeContent(c))
    ensures p + 2 <= |buf|
    ensures SearchNames(buf, p + 2, p + |EncodeContent(c)|) == Outcome(FirstHost(c.names))
  {
    AtSplit(buf, p, c.listLength.Bytes(), EncodeNames(c.names) + c.rest);
    NamesComplete(buf, p + 2, c.names, c.rest, p + |EncodeContent(c)|);
  }

  /** What the search does at an extension from `p` to `extEnd`. */
  lemma SearchStep(buf: Bytes, p: nat, extEnd: nat, end: nat)
    requires p + 4 <= extEnd <= end <= |buf| && extEnd == p + 4 + U16(buf[p + 2], buf[p + 3])
    ensures U16(buf[p], buf[p + 1]) != 0 ==> SearchExtensions(buf, p, end) == SearchExtensions(buf, extEnd, end)
    ensures U16(buf[p], buf[p + 1]) == 0 && p + 6 > |buf| ==> SearchExtensions(buf, p, end) == None
    ensures U16(buf[p], buf[p + 1]) == 0 && p + 6 <= |buf| ==>
              SearchExtensions(buf, p, end)
              == match SearchNames(buf, p + 6, extEnd)
                 case Host(name) => Accepted(name)
                 case NoHost => SearchExtensions(buf, extEnd, end)
                 case Malformed => None
  {
  }

  /** What the names of an extension come to when it is of type server_name. */
  lemma NamesOfExtension(buf: Bytes, p: nat, e: Extension)
    requires WellFormedExtension(e) && At(buf, p, EncodeExtension(e)) && e.kind.Value() == 0
    ensures p + |EncodeExtension(e)| <= |buf|
    ensures e.content.ServerNames? ==> p + 6 <= |buf|
    ensures SearchNames(buf, p + 6, p + |EncodeExtension(e)|) == Outcome(HostIn(e))
  {
    ExtensionAt(buf, p, e);
    if e.content.ServerNames? {
      ServerNamesComplete(buf, p + 4, e.content);
    }
  }

  /** One extension: its host name decides, or the search goes on behind it. */
  lemma ExtensionComplete(buf: Bytes, p: nat, e: Extension, end: nat)
    requires WellFormedExtension(e) && At(buf, p, EncodeExtension(e))
    requires p + |EncodeExtension(e)| <= end <= |buf|
    requires e.content.Other? && e.kind.Value() == 0 ==> p + 6 <= |buf|
    ensures SearchExtensions(buf, p, end)
            == if HostIn(e).Some? then Accepted(HostIn(e).value)
               else SearchExtensions(buf, p + |EncodeExtension(e)|, end)
  {
    ExtensionAt(buf, p, e);
    SearchStep(buf, p, p + |EncodeExtension(e)|, end);
    if e.kind.Value() == 0 {
      NamesOfExtension(buf, p, e);
    }
  }

  /** A too short server_name extension near the end of the buffer: no name. */
  lemma ShortIsNoName(buf: Bytes, p: nat, e: Extension, end: nat)
    requires WellFormedExtension(e) && At(buf, p, EncodeExtension(e))
    requires p + |EncodeExtension(e)| <= end <= |buf| < p + 6 && e.kind.Value() == 0
    ensures SearchExtensions(buf, p, end) == None
  {
    ExtensionAt(buf, p, e);
    SearchStep(buf, p, p + |EncodeExtension(e)|, end);
  }

  lemma PeelExtension(buf: Bytes, p: nat, es: seq<Extension>, rest: Bytes)
    requires es != [] && At(buf, p, EncodeExtensions(es) + rest)
    ensures At(buf, p, EncodeExtension(es[0]))
    ensures At(buf, p + |EncodeExtension(es[0])|, EncodeExtensions(es[1..]) + rest)
    ensures |EncodeExtensions(es)| == |EncodeExtension(es[0])| + |EncodeExtensions(es[1..])|
  {
    Assoc(EncodeExtension(es[0]), EncodeExtensions(es[1..]), rest);
    AtSplit(buf, p, EncodeExtension(es[0]), EncodeExtensions(es[1..]) + rest);
  }

  lemma AtLeastFour(es: seq<Extension>)
    ensures es == [] || |EncodeExtensions(es)| >= 4
  {
  }

  lemma {:induction false} ExtensionsComplete(buf: Bytes, p: nat, es: seq<Extension>, rest: Bytes, end: nat)
    requires forall e :: e in es ==> WellFormedExtension(e)
    requires At(buf, p, EncodeExtensions(es) + rest) && end == p + |EncodeExtensions(es)| + |rest|
    requires HostName(es).None? ==> rest == []
    ensures SearchExtensions(buf, p, end) == Found(es)
    decreases |es|
  {
    if es != [] {
      var e, tail := es[0], es[1..];
      PeelExtension(buf, p, es, rest);
      AtLeastFour(tail);
      assert |EncodeExtension(e)| >= 4;
      if e.content.Other? && e.kind.Value() == 0 && p + 6 > |buf| {
        ShortIsNoName(buf, p, e, end);
        assert tail == [] && HostName(es) == None;
      } else {
        ExtensionComplete(buf, p, e, end);
        if HostIn(e).None? {
          assert Found(es) == Found(tail);
          ExtensionsComplete(buf, p + |EncodeExtension(e)|, tail, rest, end);
        }
      }
    }
  }

  /** Where the fields before the extensions lie. */
  lemma HeadComplete(buf: Bytes, h: Hello)
    requires WellFormedHello(h) && EncodeHead(h) <= buf
    ensures ExtensionsAt(buf) == Some(|EncodeHead(h)|)
    ensures var n := |EncodeHead(h)|;
            n >= 2 && U16(buf[n - 2], buf[n - 1]) == h.extensionsLength.Value()
  {
    var head := EncodeHead(h);
    var a := FIXED + 1 + |h.session|;
    var b := a + 2 + |h.ciphers|;
    var c := b + 1 + |h.compression|;
    assert |head| == c + 2;
    assert forall i :: 0 <= i < |head| ==> buf[i] == head[i];
    assert head[0] == 0x16 && head[5] == 0x01;
    assert head[FIXED] == |h.session| && Skip8(buf, FIXED) == Some(a);
    assert head[a] == h.ciphersLength.hi && head[a + 1] == h.ciphersLength.lo;
    assert Skip16(buf, a) == Some(b);
    assert head[b] == |h.compression| && Skip8(buf, b) == Some(c);
    assert head[c] == h.extensionsLength.hi && head[c + 1] == h.extensionsLength.lo;
  }

  lemma SniFrom(buf: Bytes, p: nat)
    requires ExtensionsAt(buf) == Some(p) && 2 <= p <= |buf|
    ensures var end := p + U16(buf[p - 2], buf[p - 1]);
            SniOf(buf) == if end > |buf| then None else SearchExtensions(buf, p, end)
  {
  }

  lemma CompleteAt(buf: Bytes, h: Hello)
    requires WellFormedHello(h) && EncodeHead(h) <= buf
    requires At(buf, |EncodeHead(h)|, EncodeExtensions(h.extensions) + h.rest)
    ensures SniOf(buf) == Requested(h)
  {
    var p := |EncodeHead(h)|;
    HeadComplete(buf, h);
    SniFrom(buf, p);
    ExtensionsComplete(buf, p, h.extensions, h.rest, p + |EncodeExtensions(h.extensions)| + |h.rest|);
  }

  /** Completeness: of any well-formed hello, with any session id, ciphers,
      compression methods and extensions, the parser returns the first host
      name, if it has at most 253 bytes of UTF-8; bytes after it do not matter. */
  lemma ParserIsComplete(h: Hello, more: Bytes)
    requires WellFormedHello(h)
    ensures SniOf(Encode(h) + more) == Requested(h)
  {
    Prefixed(EncodeHead(h), EncodeExtensions(h.extensions) + h.rest, more);
    CompleteAt(Encode(h) + more, h);
  }

  lemma Prefixed(head: Bytes, body: Bytes, more: Bytes)
    ensures head <= head + body + more && At(head + body + more, |head|, body)
  {
  }

  // --------------------------------------------------------------- soundness

  lemma ConsName(n: Name, ns: seq<Name>, rest: Bytes)
    ensures EncodeNames([n] + ns) + rest == EncodeName(n) + (EncodeNames(ns) + rest)
    ensures FirstHost([n] + ns) == if n.kind == 0 then Some(n.bytes) else FirstHost(ns)
  {
    assert ([n] + ns)[1..] == ns;
    Assoc(EncodeName(n), EncodeNames(ns), rest);
  }

  lemma {:induction false} NamesSound(buf: Bytes, q: nat, end: nat) returns (ns: seq<Name>, rest: Bytes)
    requires q <= end <= |buf| && !SearchNames(buf, q, end).Malformed?
    ensures forall n :: n in ns ==> WellFormedName(n)
    ensures buf[q..end] == EncodeNames(ns) + rest
    ensures FirstHost(ns).None? ==> rest == []
    ensures SearchNames(buf, q, end) == Outcome(FirstHost(ns))
    decreases end - q
  {
    if q == end {
      ns, rest := [], [];
    } else {
      var nameEnd := q + 3 + U16(buf[q + 1], buf[q + 2]);
      var n := Name(buf[q], Length(buf[q + 1], buf[q + 2]), buf[q + 3..nameEnd]);
      assert buf[q..nameEnd] == EncodeName(n);
      assert buf[q..end] == buf[q..nameEnd] + buf[nameEnd..end];
      var ns': seq<Name> := [];
      if n.kind == 0 {
        rest := buf[nameEnd..end];
        assert EncodeNames([]) + rest == rest;
      } else {
        ns', rest := NamesSound(buf, nameEnd, end);
      }
      ns := [n] + ns';
      ConsName(n, ns', rest);
    }
  }

  /** The bytes from `p` to `extEnd` are one extension, and what it says about names. */
  lemma ExtensionSound(buf: Bytes, p: nat, extEnd: nat) returns (e: Extension)
    requires p + 4 <= extEnd <= |buf| && extEnd == p + 4 + U16(buf[p + 2], buf[p + 3])
    requires U16(buf[p], buf[p + 1]) == 0 ==> p + 6 <= |buf| && !SearchNames(buf, p + 6, extEnd).Malformed?
    ensures WellFormedExtension(e) && buf[p..extEnd] == EncodeExtension(e)
    ensures U16(buf[p], buf[p + 1]) == 0 ==> SearchNames(buf, p + 6, extEnd) == Outcome(HostIn(e))
    ensures U16(buf[p], buf[p + 1]) != 0 ==> HostIn(e).None?
  {
    var kind, len, data := Length(buf[p], buf[p + 1]), Length(buf[p + 2], buf[p + 3]), buf[p + 4..extEnd];
    assert buf[p..extEnd] == kind.Bytes() + len.Bytes() + data;
    if kind.Value() == 0 && |data| >= 2 {
      var ns, rest := NamesSound(buf, p + 6, extEnd);
      var c := ServerNames(Length(buf[p + 4], buf[p + 5]), ns, rest);
      assert data == c.listLength.Bytes() + buf[p + 6..extEnd];
      e := Extension(kind, len, c);
    } else {
      e := Extension(kind, len, Other(data));
    }
  }

  lemma ConsExtension(e: Extension, es: seq<Extension>, rest: Bytes)
    ensures EncodeExtensions([e] + es) + rest == EncodeExtension(e) + (EncodeExtensions(es) + rest)
    ensures HostName([e] + es) == if HostIn(e).Some? then HostIn(e) else HostName(es)
  {
    assert ([e] + es)[1..] == es;
    Assoc(EncodeExtension(e), EncodeExtensions(es), rest);
  }

  lemma {:induction false} ExtensionsSound(buf: Bytes, p: nat, end: nat)
    returns (es: seq<Extension>, rest: Bytes)
    requires p <= end <= |buf| && SearchExtensions(buf, p, end).Some?
    ensures forall e :: e in es ==> WellFormedExtension(e)
    ensures buf[p..end] == EncodeExtensions(es) + rest
    ensures HostName(es).Some? && Found(es) == SearchExtensions(buf, p, end)
    decreases end - p
  {
    var extEnd := p + 4 + U16(buf[p + 2], buf[p + 3]);
    SearchStep(buf, p, extEnd, end);
    var e := ExtensionSound(buf, p, extEnd);
    assert buf[p..end] == buf[p..extEnd] + buf[extEnd..end];
    var es': seq<Extension> := [];
    if HostIn(e).Some? {
      rest := buf[extEnd..end];
      assert EncodeExtensions([]) + rest == rest;
    } else {
      es', rest := ExtensionsSound(buf, extEnd, end);
    }
    es := [e] + es';
    ConsExtension(e, es', rest);
  }

  /** The fields before the extensions can be read off any buffer that has them. */
  lemma HeadSound(buf: Bytes, es: seq<Extension>, rest: Bytes) returns (h: Hello)
    requires ExtensionsAt(buf).Some? && 2 <= ExtensionsAt(buf).value <= |buf|
    requires var p := ExtensionsAt(buf).value;
             |EncodeExtensions(es)| + |rest| == U16(buf[p - 2], buf[p - 1])
    requires (forall e :: e in es ==> WellFormedExtension(e)) && HostName(es).Some?
    ensures WellFormedHello(h) && h.extensions == es && h.rest == rest
    ensures EncodeHead(h) == buf[..ExtensionsAt(buf).value]
  {
    var p := ExtensionsAt(buf).value;
    var a := Skip8(buf, FIXED).value;
    var b := Skip16(buf, a).value;
    var c := Skip8(buf, b).value;
    h := Hello(
      buf[1..5], buf[6..FIXED], buf[FIXED + 1..a], Length(buf[a], buf[a + 1]), buf[a + 2..b], buf[b + 1..c],
      Length(buf[c], buf[c + 1]), es, rest);
    SliceThrough(buf, a, b, c, p);
  }

  lemma SliceThrough(buf: Bytes, a: nat, b: nat, c: nat, p: nat)
    requires FIXED < a && a + 2 <= b < c && c + 2 == p <= |buf|
    ensures buf[..p] == [buf[0]] + buf[1..5] + [buf[5]] + buf[6..FIXED]
                        + [buf[FIXED]] + buf[FIXED + 1..a]
                        + [buf[a], buf[a + 1]] + buf[a + 2..b]
                        + [buf[b]] + buf[b + 1..c]
                        + [buf[c], buf[c + 1]]
  {
    assert buf[..FIXED] == [buf[0]] + buf[1..5] + [buf[5]] + buf[6..FIXED];
    assert buf[..a] == buf[..FIXED] + [buf[FIXED]] + buf[FIXED + 1..a];
    assert buf[..b] == buf[..a] + [buf[a], buf[a + 1]] + buf[a + 2..b];
    assert buf[..c] == buf[..b] + [buf[b]] + buf[b + 1..c];
    assert buf[..p] == buf[..c] + [buf[c], buf[c + 1]];
  }

  /** `buf` starts with a well-formed hello that asks for `name`. */
  ghost predicate StartsWithHello(buf: Bytes, name: Bytes) {
    exists h: Hello :: AsksFor(h, name) && Encode(h) <= buf
  }

  ghost predicate AsksFor(h: Hello, name: Bytes) {
    WellFormedHello(h) && Requested(h) == Some(name)
  }

  lemma ParserIsSound(buf: Bytes, name: Bytes) returns (h: Hello)
    requires SniOf(buf) == Some(name)
    ensures AsksFor(h, name) && Encode(h) <= buf
  {
    var p := ExtensionsAt(buf).value;
    var end := p + U16(buf[p - 2], buf[p - 1]);
    var es, rest := ExtensionsSound(buf, p, end);
    h := HeadSound(buf, es, rest);
    SlicesJoin(buf, p, end);
  }

  lemma SlicesJoin(buf: Bytes, p: nat, end: nat)
    requires p <= end <= |buf|
    ensures buf[..p] + buf[p..end] <= buf
  {
    assert buf[..p] + buf[p..end] == buf[..end];
  }

  /** The parser returns a name exactly when the buffer starts with a
      well-formed hello that asks for it. */
  lemma ParserIsExact(buf: Bytes, name: Bytes)
    ensures SniOf(buf) == Some(name) <==> StartsWithHello(buf, name)
  {
    if SniOf(buf) == Some(name) {
      var h := ParserIsSound(buf, name);
    }
    if StartsWithHello(buf, name) {
      var h: Hello :| AsksFor(h, name) && Encode(h) <= buf;
      assert buf == Encode(h) + buf[|Encode(h)|..];
      ParserIsComplete(h, buf[|Encode(h)|..]);
    }
  }

  /** A name that was found stays the same when more bytes arrive. */
  lemma FoundNameIsFinal(buf: Bytes, more: Bytes)
    requires SniOf(buf).Some?
    ensures SniOf(buf + more) == SniOf(buf)
  {
    var h := ParserIsSound(buf, SniOf(buf).value);
    var e, tail := Encode(h), buf[|Encode(h)|..];
    assert buf == e + tail;
    Assoc(e, tail, more);
    ParserIsComplete(h, tail + more);
  }

  /** An ASCII name of at most 253 bytes is always acceptable. */
  lemma {:induction false} AsciiIsAccepted(name: Bytes)
    requires forall i :: 0 <= i < |name| ==> name[i] < 0x80
    ensures ValidUtf8(name)
    ensures |name| <= 253 ==> Accepted(name) == Some(name)
  {
    if name != [] {
      assert Utf8Unit(name) == 1;
      AsciiIsAccepted(name[1..]);
    }
  }
}
