/** Reading the ClientHello off the wire and giving it back to the next reader. */
module Replay {
  import opened Prelude
  import Sni

  type Bytes = Sni.Bytes

  const MAX_RECORD_SIZE: nat := 16 * 1024

  function Min(a: int, b: int): int {
    if a < b then a else b
  }

  /** A connection that counts what was read from it. `wire` is all the peer sends. */
  class Metered {
    ghost const wire: Bytes
    var incoming: Bytes
    var read: nat

    /** What is still to come is the wire behind the bytes that were counted. */
    ghost predicate Valid()
      reads this
    {
      read <= |wire| && incoming == wire[read..]
    }

    constructor (wire: Bytes)
      ensures Valid() && this.wire == wire && read == 0
    {
      this.wire, incoming, read := wire, wire, 0;
    }

    /** One read into a buffer with room for `room` bytes. The transport delivers
        up to `ready` bytes; how many that is, is not ours to decide. */
    method PollRead(room: nat, ready: nat) returns (got: Bytes)
      requires Valid()
      modifies this
      ensures Valid() && |got| == Min(room, Min(ready, |wire| - old(read)))
      ensures read == old(read) + |got| && got == wire[old(read)..read]
    {
      var n := Min(room, Min(ready, |incoming|));
      got := incoming[..n];
      incoming := incoming[n..];
      read := read + |got|;
    }

    /** `read_exact`: reads until `n` bytes are there or the stream ends. */
    method ReadExact(n: nat) returns (got: Option<Bytes>)
      requires Valid()
      modifies this
      ensures Valid()
      ensures got.Some? <==> old(read) + n <= |wire|
      ensures got.Some? ==> read == old(read) + n && got.value == wire[old(read)..read]
    {
      var acc: Bytes := [];
      while |acc| < n
        invariant Valid() && |acc| <= n
        invariant read == old(read) + |acc| && acc == wire[old(read)..read]
        decreases n - |acc|
      {
        if incoming == [] {
          return None;
        }
        var ready: nat :| ready > 0;
        var got' := PollRead(n - |acc|, ready);
        acc := acc + got';
      }
      return Some(acc);
    }
  }

  datatype HelloError = Eof | NotHandshake | TooLarge(len: nat)

  /** What `read_client_hello` makes of the start of a stream: the first TLS
      record, header included. */
  function FirstRecord(s: Bytes): Result<Bytes, HelloError> {
    if |s| < 5 then Err(Eof)
    else if s[0] != 0x16 then Err(NotHandshake)
    else
      var n := U16(s[3], s[4]);
      if n > MAX_RECORD_SIZE then Err(TooLarge(n))
      else if |s| < 5 + n then Err(Eof)
      else Ok(s[..5 + n])
  }

  /** `s` starts with a handshake record of this length: type 22, any version, then
      the length with its high byte first. */
  ghost predicate RecordHeader(s: Bytes, n: nat) {
    |s| >= 5 && s[0] == 22 && n < 65536 && s[3] == n / 256 && s[4] == n % 256
  }

  /** The record is read exactly if it is a whole handshake record of at most 16384
      bytes after its header; each error exactly where it belongs. */
  lemma FirstRecordExactly(s: Bytes, n: nat)
    ensures FirstRecord(s) == Err(NotHandshake) <==> |s| >= 5 && s[0] != 22
    ensures FirstRecord(s) == Err(TooLarge(n)) <==> RecordHeader(s, n) && n > 16384
    ensures RecordHeader(s, n) && n <= 16384 ==>
              FirstRecord(s) == if |s| >= 5 + n then Ok(s[..5 + n]) else Err(Eof)
    ensures |s| < 5 ==> FirstRecord(s) == Err(Eof)
    ensures |s| >= 5 && s[0] == 22 ==> exists m: nat :: RecordHeader(s, m)
  {
    if |s| >= 5 {
      U16Exactly(s[3], s[4], n);
      var m := U16(s[3], s[4]);
      U16Exactly(s[3], s[4], m);
      assert s[0] == 22 ==> RecordHeader(s, m);
    }
  }

  method ReadClientHello(stream: Metered) returns (r: Result<Bytes, HelloError>)
    requires stream.Valid() && stream.read == 0
    modifies stream
    ensures stream.Valid()
    ensures r == FirstRecord(stream.wire)
    ensures r.Ok? ==> r.value == stream.wire[..stream.read]
  {
    var head := stream.ReadExact(5);
    if head.None? {
      return Err(Eof);
    }
    var buf := head.value;
    if buf[0] != 0x16 {
      return Err(NotHandshake);
    }
    var recLen := U16(buf[3], buf[4]);
    if recLen > MAX_RECORD_SIZE {
      return Err(TooLarge(recLen));
    }
    var body := stream.ReadExact(recLen);
    if body.None? {
      return Err(Eof);
    }
    assert buf + body.value == stream.wire[..5 + recLen];
    return Ok(buf + body.value);
  }

  /** The name found in the first record is the name of the whole stream, as
      whoever reads the replayed bytes will see it. */
  lemma RecordNameIsStreamName(wire: Bytes)
    requires FirstRecord(wire).Ok? && Sni.SniOf(FirstRecord(wire).value).Some?
    ensures Sni.SniOf(wire) == Sni.SniOf(FirstRecord(wire).value)
  {
    var record := FirstRecord(wire).value;
    assert wire == record + wire[|record|..];
    Sni.FoundNameIsFinal(record, wire[|record|..]);
  }

  /** A stream that replays a prefix before it reads on. */
  class PrefixedStream {
    const prefix: Bytes
    var consumed: nat
    const inner: Metered

    /** The prefix is the start of the wire, and nothing behind it is read
        before all of it was replayed. */
    ghost predicate Valid()
      reads this, inner
    {
      && inner.Valid() && consumed <= |prefix| <= inner.read
      && prefix == inner.wire[..|prefix|]
      && (consumed < |prefix| ==> inner.read == |prefix|)
    }

    /** How many bytes of the wire the readers of this stream have seen. */
    ghost function Delivered(): nat
      reads this, inner
      requires Valid()
    {
      if consumed < |prefix| then consumed else inner.read
    }

    constructor (prefix: Bytes, inner: Metered)
      requires inner.Valid() && inner.read == |prefix| && prefix == inner.wire[..|prefix|]
      ensures Valid() && this.inner == inner && this.prefix == prefix && consumed == 0
      ensures prefix != [] ==> Delivered() == 0
    {
      this.prefix, this.consumed, this.inner := prefix, 0, inner;
    }

    method PollRead(room: nat, ready: nat) returns (got: Bytes)
      requires Valid()
      modifies this, inner
      ensures Valid()
      ensures |got| == if old(consumed) < |prefix| then Min(room, |prefix| - old(consumed))
                       else Min(room, Min(ready, |inner.wire| - old(inner.read)))
      ensures Delivered() == old(Delivered()) + |got|
      ensures got == inner.wire[old(Delivered())..Delivered()]
      ensures inner.wire[..old(Delivered())] + got + prefix[consumed..] == inner.wire[..inner.read]
    {
      if consumed < |prefix| {
        var remaining := prefix[consumed..];
        var take := Min(|remaining|, room);
        got := remaining[..take];
        consumed := consumed + take;
      } else {
        got := inner.PollRead(room, ready);
      }
      assert inner.wire[..old(Delivered())] + got == inner.wire[..Delivered()];
      assert inner.wire[..Delivered()] + prefix[consumed..] == inner.wire[..inner.read];
    }

    /** The copy loop of a pipe: any sequence of read sizes and of arrivals. What
        went downstream is exactly a prefix of the wire, and together with the
        part of the ClientHello still to be replayed it is what the meter counts. */
    method Copy(rooms: seq<nat>, arrivals: seq<nat>) returns (out: Bytes)
      requires Valid() && consumed == 0 && inner.read == |prefix| && |rooms| == |arrivals|
      modifies this, inner
      ensures Valid()
      ensures out <= inner.wire
      ensures out + prefix[consumed..] == inner.wire[..inner.read]
    {
      out := [];
      if prefix == [] {
        assert inner.wire[..inner.read] == [];
      }
      for k := 0 to |rooms|
        invariant Valid()
        invariant out + prefix[consumed..] == inner.wire[..inner.read]
        invariant |out| == if consumed < |prefix| then consumed else inner.read
      {
        ghost var before := out;
        var got := PollRead(rooms[k], arrivals[k]);
        out := out + got;
        assert before == inner.wire[..|before|];
      }
      assert out == inner.wire[..|out|];
    }
  }
}
