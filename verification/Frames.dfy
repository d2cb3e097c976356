/** Length-delimited frames: the incremental decoder and the two readers that
    take exactly one frame off a stream. */
module Frames {
  import opened Prelude

  type Bytes = seq<Byte>

  const LEN_PREFIX: nat := 4
  const MAX_FRAME_SIZE: nat := 0x1_0000

  /** The payload format (CBOR). `None` is a payload that cannot be written or read. */
  datatype Codec<!F> = Codec(write: F -> Option<Bytes>, read: Bytes -> Option<F>)

  ghost predicate RoundTrips<F(!new)>(c: Codec<F>) {
    forall x :: c.write(x).Some? ==> c.read(c.write(x).value) == Some(x)
  }

  datatype Error = Cbor | Oversized(len: nat) | UnexpectedEof

  function Be32(b0: Byte, b1: Byte, b2: Byte, b3: Byte): nat {
    ((b0 * 256 + b1) * 256 + b2) * 256 + b3
  }

  function Put32(n: nat): (b: Bytes)
    requires n < 0x1_0000_0000
    ensures |b| == 4 && Be32(b[0], b[1], b[2], b[3]) == n
  {
    var (n1, b3) := (n / 256, n % 256);
    var (n2, b2) := (n1 / 256, n1 % 256);
    var (b0, b1) := (n2 / 256, n2 % 256);
    [b0, b1, b2, b3]
  }

  /** The four bytes of a length, most significant first. */
  function BigEndian(n: nat): Bytes
    requires n < 0x1_0000_0000
  {
    [n / 0x100_0000, n / 0x1_0000 % 256, n / 256 % 256, n % 256]
  }

  lemma PutIsBigEndian(n: nat)
    requires n < 0x1_0000_0000
    ensures Put32(n) == BigEndian(n)
  {
  }

  lemma PutOfBe(b0: Byte, b1: Byte, b2: Byte, b3: Byte)
    ensures Be32(b0, b1, b2, b3) < 0x1_0000_0000
    ensures Put32(Be32(b0, b1, b2, b3)) == [b0, b1, b2, b3]
  {
    var n := Be32(b0, b1, b2, b3);
    assert n / 256 == (b0 * 256 + b1) * 256 + b2;
    assert n / 256 / 256 == b0 * 256 + b1;
  }

  // --------------------------------------------------------------- encoding

  function EncodeFrame<F>(c: Codec<F>, item: F): Result<Bytes, Error> {
    match c.write(item)
    case None => Err(Cbor)
    case Some(payload) =>
      if |payload| > MAX_FRAME_SIZE then Err(Oversized(|payload|)) else Ok(Put32(|payload|) + payload)
  }

  /** A frame is the length of the payload in four bytes, most significant first, and
      the payload; a payload of more than 65536 bytes is refused. */
  lemma EncodeFrameExactly<F>(c: Codec<F>, item: F)
    ensures EncodeFrame(c, item)
            == match c.write(item)
               case None => Err(Cbor)
               case Some(payload) =>
                 if |payload| <= 65536 then Ok(BigEndian(|payload|) + payload) else Err(Oversized(|payload|))
  {
    if c.write(item).Some? && |c.write(item).value| <= 65536 {
      PutIsBigEndian(|c.write(item).value|);
    }
  }

  /** A growable byte buffer, as a decoder or a stream sees it. */
  class Buffer {
    var bytes: Bytes

    constructor (bytes: Bytes)
      ensures this.bytes == bytes
    {
      this.bytes := bytes;
    }
  }

  method Encode<F>(c: Codec<F>, item: F, dst: Buffer) returns (r: Result<(), Error>)
    modifies dst
    ensures match EncodeFrame(c, item)
            case Ok(frame) => r == Ok(()) && dst.bytes == old(dst.bytes) + frame
            case Err(e) => r == Err(e) && dst.bytes == old(dst.bytes)
  {
    var payload := c.write(item);
    if payload.None? {
      return Err(Cbor);
    }
    if |payload.value| > MAX_FRAME_SIZE {
      return Err(Oversized(|payload.value|));
    }
    dst.bytes := dst.bytes + Put32(|payload.value|);
    dst.bytes := dst.bytes + payload.value;
    assert dst.bytes == old(dst.bytes) + (Put32(|payload.value|) + payload.value);
    return Ok(());
  }

  /** The same frame, filled into an array of the exact size. */
  method EncodeFrameArray<F>(c: Codec<F>, item: F) returns (r: Result<Bytes, Error>)
    ensures r == EncodeFrame(c, item)
  {
    var payload := c.write(item);
    if payload.None? {
      return Err(Cbor);
    }
    var p := payload.value;
    if |p| > MAX_FRAME_SIZE {
      return Err(Oversized(|p|));
    }
    var out := new Byte[LEN_PREFIX + |p|];
    var prefix := Put32(|p|);
    out[0], out[1], out[2], out[3] := prefix[0], prefix[1], prefix[2], prefix[3];
    for k := 0 to |p|
      invariant out[..LEN_PREFIX + k] == prefix + p[..k]
    {
      out[LEN_PREFIX + k] := p[k];
    }
    assert p[..|p|] == p && out[..LEN_PREFIX + |p|] == out[..];
    return Ok(out[..]);
  }

  // --------------------------------------------------------------- decoding

  datatype Decoded<F> = NeedMore | Failed(error: Error) | Item(value: F)

  /** One call of the decoder: its answer and what is left in the buffer. */
  datatype Decoding<F> = Decoding(answer: Decoded<F>, rest: Bytes)

  function LengthAt(src: Bytes): nat
    requires |src| >= LEN_PREFIX
  {
    Be32(src[0], src[1], src[2], src[3])
  }

  function Decode<F>(c: Codec<F>, src: Bytes): (r: Decoding<F>)
    ensures r.answer.Item? ==> |r.rest| < |src|
    ensures r.answer.NeedMore? ==> r.rest == src
  {
    if |src| < LEN_PREFIX then Decoding(NeedMore, src)
    else
      var n := LengthAt(src);
      if n > MAX_FRAME_SIZE then Decoding(Failed(Oversized(n)), src)
      else if |src| < LEN_PREFIX + n then Decoding(NeedMore, src)
      else
        match c.read(src[LEN_PREFIX..LEN_PREFIX + n])
        case Some(x) => Decoding(Item(x), src[LEN_PREFIX + n..])
        case None => Decoding(Failed(Cbor), src[LEN_PREFIX + n..])
  }

  method DecodeFrame<F>(c: Codec<F>, src: Buffer) returns (r: Decoded<F>)
    modifies src
    ensures Decoding(r, src.bytes) == Decode(c, old(src.bytes))
  {
    if |src.bytes| < LEN_PREFIX {
      return NeedMore;
    }
    var n := LengthAt(src.bytes);
    if n > MAX_FRAME_SIZE {
      return Failed(Oversized(n));
    }
    if |src.bytes| < LEN_PREFIX + n {
      return NeedMore;
    }
    src.bytes := src.bytes[LEN_PREFIX..];
    var payload := src.bytes[..n];
    src.bytes := src.bytes[n..];
    assert payload == old(src.bytes)[LEN_PREFIX..LEN_PREFIX + n];
    assert src.bytes == old(src.bytes)[LEN_PREFIX + n..];
    var item := c.read(payload);
    return if item.Some? then Item(item.value) else Failed(Cbor);
  }

  /** `src` starts with a frame of this payload. */
  ghost predicate StartsWithFrame(src: Bytes, payload: Bytes, rest: Bytes) {
    |payload| <= 65536 && src == BigEndian(|payload|) + payload + rest
  }

  /** `src` starts with the length `n`. */
  ghost predicate StartsWithLength(src: Bytes, n: nat) {
    n < 0x1_0000_0000 && |src| >= 4 && src[..4] == BigEndian(n)
  }

  lemma LengthAtExactly(src: Bytes, n: nat)
    requires |src| >= 4
    ensures LengthAt(src) == n <==> StartsWithLength(src, n)
  {
    PutOfBe(src[0], src[1], src[2], src[3]);
    assert src[..4] == [src[0], src[1], src[2], src[3]];
    PutIsBigEndian(LengthAt(src));
    if StartsWithLength(src, n) {
      PutIsBigEndian(n);
      assert Put32(n) == [src[0], src[1], src[2], src[3]];
    }
  }

  /** The other answers of the decoder: an oversized length is an error at once and
      nothing is taken, an unreadable payload is taken with its frame, and otherwise
      the decoder waits exactly while the frame is not complete. */
  lemma DecodeErrorsExactly<F>(c: Codec<F>, src: Bytes, n: nat)
    ensures Decode(c, src) == Decoding(Failed(Oversized(n)), src) <==> StartsWithLength(src, n) && n > 65536
    ensures |src| < 4 ==> Decode(c, src) == Decoding(NeedMore, src)
    ensures StartsWithLength(src, n) && n <= 65536 ==>
              && (Decode(c, src) == Decoding(NeedMore, src) <==> |src| < 4 + n)
              && (Decode(c, src).answer == Failed(Cbor) <==> |src| >= 4 + n && c.read(src[4..4 + n]) == None)
              && (Decode(c, src).answer == Failed(Cbor) ==> Decode(c, src).rest == src[4 + n..])
  {
    if |src| >= 4 {
      LengthAtExactly(src, n);
    }
  }

  /** The decoder yields an item exactly when the buffer starts with a frame
      whose payload reads as that item, and it takes exactly that frame. */
  lemma DecodeIsExact<F>(c: Codec<F>, src: Bytes, x: F, rest: Bytes)
    ensures Decode(c, src) == Decoding(Item(x), rest)
            <==> exists payload :: StartsWithFrame(src, payload, rest) && c.read(payload) == Some(x)
  {
    if Decode(c, src) == Decoding(Item(x), rest) {
      var n := LengthAt(src);
      var payload := src[LEN_PREFIX..LEN_PREFIX + n];
      PutOfBe(src[0], src[1], src[2], src[3]);
      PutIsBigEndian(n);
      assert src == BigEndian(n) + payload + rest;
      assert StartsWithFrame(src, payload, rest);
    }
    forall payload | StartsWithFrame(src, payload, rest) && c.read(payload) == Some(x)
      ensures Decode(c, src) == Decoding(Item(x), rest)
    {
      PutIsBigEndian(|payload|);
      FrameDecodes(c, payload, rest);
    }
  }

  lemma FrameDecodes<F>(c: Codec<F>, payload: Bytes, rest: Bytes)
    requires |payload| <= MAX_FRAME_SIZE
    ensures Decode(c, Put32(|payload|) + payload + rest)
            == Decoding(match c.read(payload) case Some(x) => Item(x) case None => Failed(Cbor), rest)
  {
    var src := Put32(|payload|) + payload + rest;
    assert LengthAt(src) == |payload|;
    assert src[LEN_PREFIX..LEN_PREFIX + |payload|] == payload;
    assert src[LEN_PREFIX + |payload|..] == rest;
  }

  /** An answer other than "need more" does not depend on later bytes. */
  lemma DecodeExtends<F>(c: Codec<F>, src: Bytes, more: Bytes)
    requires !Decode(c, src).answer.NeedMore?
    ensures Decode(c, src + more) == Decoding(Decode(c, src).answer, Decode(c, src).rest + more)
  {
    var n := LengthAt(src);
    assert LengthAt(src + more) == n;
    if n <= MAX_FRAME_SIZE {
      assert (src + more)[LEN_PREFIX..LEN_PREFIX + n] == src[LEN_PREFIX..LEN_PREFIX + n];
      assert (src + more)[LEN_PREFIX + n..] == src[LEN_PREFIX + n..] + more;
    }
  }

  // ------------------------------------------------ a stream in any chunks

  /** Everything a reader gets out of a stream: the items, and then either
      bytes that are not yet a frame or the error that ends the stream. */
  datatype End = Waiting(rest: Bytes) | Broken(error: Error)

  datatype Output<F> = Output(items: seq<F>, end: End)

  function DecodeAll<F>(c: Codec<F>, src: Bytes): Output<F>
    decreases |src|
  {
    var d := Decode(c, src);
    match d.answer
    case NeedMore => Output([], Waiting(src))
    case Failed(e) => Output([], Broken(e))
    case Item(x) =>
      var o := DecodeAll(c, d.rest);
      Output([x] + o.items, o.end)
  }

  /** A chunk arrives: it is appended to what is buffered, and the decoder is
      called until it needs more; an error ends the stream. */
  function Feed<F>(c: Codec<F>, out: Output<F>, chunk: Bytes): Output<F> {
    match out.end
    case Broken(_) => out
    case Waiting(rest) =>
      var o := DecodeAll(c, rest + chunk);
      Output(out.items + o.items, o.end)
  }

  function FeedAll<F>(c: Codec<F>, out: Output<F>, chunks: seq<Bytes>): Output<F>
    decreases |chunks|
  {
    if chunks == [] then out else FeedAll(c, Feed(c, out, chunks[0]), chunks[1..])
  }

  /** All the bytes of the chunks, first chunk first. */
  function Joined(chunks: seq<Bytes>): Bytes {
    if chunks == [] then [] else chunks[0] + Joined(chunks[1..])
  }

  /** The output of a reader that has not got anything yet. */
  function Nothing<F>(): Output<F> {
    Output([], Waiting([]))
  }

  lemma Assoc<T>(a: seq<T>, b: seq<T>, c: seq<T>)
    ensures a + b + c == a + (b + c)
  {
  }

  lemma DecodeAllItem<F>(c: Codec<F>, src: Bytes, x: F, rest: Bytes)
    requires Decode(c, src) == Decoding(Item(x), rest)
    ensures DecodeAll(c, src) == Output([x] + DecodeAll(c, rest).items, DecodeAll(c, rest).end)
  {
  }

  lemma FeedItem<F>(c: Codec<F>, x: F, out: Output<F>, more: Bytes)
    ensures var fed := Feed(c, out, more);
            Feed(c, Output([x] + out.items, out.end), more) == Output([x] + fed.items, fed.end)
  {
    if out.end.Waiting? {
      Assoc([x], out.items, DecodeAll(c, out.end.rest + more).items);
    }
  }

  lemma {:induction false} DecodeAllExtends<F>(c: Codec<F>, src: Bytes, more: Bytes)
    ensures DecodeAll(c, src + more) == Feed(c, DecodeAll(c, src), more)
    decreases |src|
  {
    var d := Decode(c, src);
    match d.answer {
      case NeedMore =>
      case Failed(_) => DecodeExtends(c, src, more);
      case Item(x) =>
        DecodeExtends(c, src, more);
        DecodeAllItem(c, src + more, x, d.rest + more);
        DecodeAllExtends(c, d.rest, more);
        FeedItem(c, x, DecodeAll(c, d.rest), more);
    }
  }

  lemma {:induction false} FeedAllExtends<F>(c: Codec<F>, src: Bytes, chunks: seq<Bytes>)
    ensures FeedAll(c, DecodeAll(c, src), chunks) == DecodeAll(c, src + Joined(chunks))
    decreases |chunks|
  {
    if chunks == [] {
      assert src + [] == src;
    } else {
      DecodeAllExtends(c, src, chunks[0]);
      FeedAllExtends(c, src + chunks[0], chunks[1..]);
      Assoc(src, chunks[0], Joined(chunks[1..]));
    }
  }

  /** However a byte stream is cut into chunks, the items and the first error
      are those of the whole stream at once. */
  lemma ChunksDoNotMatter<F>(c: Codec<F>, chunks: seq<Bytes>)
    ensures FeedAll(c, Nothing(), chunks) == DecodeAll(c, Joined(chunks))
  {
    FeedAllExtends(c, [], chunks);
    assert [] + Joined(chunks) == Joined(chunks);
  }

  /** The items can all be encoded. */
  predicate Encodable<F>(c: Codec<F>, items: seq<F>) {
    forall i :: 0 <= i < |items| ==> EncodeFrame(c, items[i]).Ok?
  }

  function EncodeAll<F>(c: Codec<F>, items: seq<F>): Bytes
    requires Encodable(c, items)
  {
    if items == [] then [] else EncodeFrame(c, items[0]).value + EncodeAll(c, items[1..])
  }

  lemma {:induction false} DecodeEncodeAll<F(!new)>(c: Codec<F>, items: seq<F>)
    requires RoundTrips(c) && Encodable(c, items)
    ensures DecodeAll(c, EncodeAll(c, items)) == Output(items, Waiting([]))
  {
    if items != [] {
      assert EncodeFrame(c, items[0]).Ok?;
      var payload, tail := c.write(items[0]).value, EncodeAll(c, items[1..]);
      FrameDecodes(c, payload, tail);
      DecodeAllItem(c, EncodeAll(c, items), items[0], tail);
      DecodeEncodeAll(c, items[1..]);
      assert items == [items[0]] + items[1..];
    }
  }

  /** Any stream: after whole frames comes what the decoder says about the rest, and
      it is the error of the first bytes that cannot be decoded that ends the stream. */
  lemma {:induction false} DecodeAllOfFrames<F(!new)>(c: Codec<F>, items: seq<F>, rest: Bytes)
    requires RoundTrips(c) && Encodable(c, items) && !Decode(c, rest).answer.Item?
    ensures DecodeAll(c, EncodeAll(c, items) + rest)
            == Output(items, if Decode(c, rest).answer.NeedMore? then Waiting(rest) else Broken(Decode(c, rest).answer.error))
  {
    DecodeEncodeAll(c, items);
    DecodeAllExtends(c, EncodeAll(c, items), rest);
    assert [] + rest == rest && items + [] == items;
  }

  /** Round trip: frames written one after the other and cut anywhere come back
      in order, and nothing is left over. */
  lemma FramesSurviveChunking<F(!new)>(c: Codec<F>, items: seq<F>, chunks: seq<Bytes>)
    requires RoundTrips(c) && Encodable(c, items) && Joined(chunks) == EncodeAll(c, items)
    ensures FeedAll(c, Nothing(), chunks) == Output(items, Waiting([]))
  {
    ChunksDoNotMatter(c, chunks);
    DecodeEncodeAll(c, items);
  }

  // ------------------------------------------- exactly one frame of a stream

  /** `read_exact`: takes `n` bytes, or everything there is and then fails. */
  method ReadExact(r: Buffer, n: nat) returns (got: Option<Bytes>)
    modifies r
    ensures got.Some? <==> n <= |old(r.bytes)|
    ensures got.Some? ==> got.value == old(r.bytes)[..n] && r.bytes == old(r.bytes)[n..]
    ensures got.None? ==> r.bytes == []
  {
    if |r.bytes| < n {
      r.bytes := [];
      return None;
    }
    got := Some(r.bytes[..n]);
    r.bytes := r.bytes[n..];
  }

  /** One frame and not a byte more: the same item or error as the decoder has
      for these bytes, and the stream goes on right behind the frame; behind its
      length if that is too large; at its end if the stream ends in the frame. */
  method ReadFrame<F>(c: Codec<F>, r: Buffer) returns (res: Result<F, Error>)
    modifies r
    ensures var d := Decode(c, old(r.bytes));
            match d.answer
            case Item(x) => res == Ok(x) && r.bytes == d.rest
            case Failed(Cbor) => res == Err(Cbor) && r.bytes == d.rest
            case Failed(e) => res == Err(e) && r.bytes == old(r.bytes)[LEN_PREFIX..]
            case NeedMore => res == Err(UnexpectedEof) && r.bytes == []
  {
    var all := r.bytes;
    var prefix := ReadExact(r, LEN_PREFIX);
    if prefix.None? {
      return Err(UnexpectedEof);
    }
    var n := LengthAt(prefix.value);
    if n > MAX_FRAME_SIZE {
      return Err(Oversized(n));
    }
    var payload := ReadExact(r, n);
    if payload.None? {
      return Err(UnexpectedEof);
    }
    assert payload.value == all[LEN_PREFIX..LEN_PREFIX + n] && r.bytes == all[LEN_PREFIX + n..];
    var item := c.read(payload.value);
    return if item.Some? then Ok(item.value) else Err(Cbor);
  }

  /** A stream that hands over its bytes in chunks. */
  class ChunkReader {
    var chunks: seq<Bytes>

    constructor (chunks: seq<Bytes>)
      ensures this.chunks == chunks
    {
      this.chunks := chunks;
    }
  }

  /** Reads chunks into a buffer until it holds `n` bytes. */
  method PullUntil(reader: ChunkReader, buf: Bytes, n: nat) returns (got: Option<Bytes>)
    modifies reader
    ensures got.Some? <==> n <= |buf + Joined(old(reader.chunks))|
    ensures got.Some? ==> n <= |got.value| && got.value + Joined(reader.chunks) == buf + Joined(old(reader.chunks))
  {
    var b := buf;
    while |b| < n
      invariant b + Joined(reader.chunks) == buf + Joined(old(reader.chunks))
      decreases |reader.chunks|
    {
      if reader.chunks == [] {
        return None;
      }
      var chunk := reader.chunks[0];
      assert b + Joined(reader.chunks) == (b + chunk) + Joined(reader.chunks[1..]);
      b := b + chunk;
      reader.chunks := reader.chunks[1..];
    }
    return Some(b);
  }

  /** The reader of the TypeScript client takes whole chunks; what it read behind
      the frame comes back as `leftover`. Same item or error as the decoder, and
      leftover and unread chunks together are the stream behind the frame. */
  method ReadFrameChunked<F>(c: Codec<F>, reader: ChunkReader) returns (res: Result<(F, Bytes), Error>)
    modifies reader
    ensures var d := Decode(c, Joined(old(reader.chunks)));
            match d.answer
            case Item(x) => res.Ok? && res.value.0 == x && res.value.1 + Joined(reader.chunks) == d.rest
            case Failed(e) => res == Err(e)
            case NeedMore => res == Err(UnexpectedEof)
  {
    ghost var all := Joined(reader.chunks);
    var start := PullUntil(reader, [], LEN_PREFIX);
    assert [] + all == all;
    if start.None? {
      return Err(UnexpectedEof);
    }
    var n := LengthAt(start.value);
    assert start.value + Joined(reader.chunks) == all;
    assert n == LengthAt(all);
    if n > MAX_FRAME_SIZE {
      return Err(Oversized(n));
    }
    var full := PullUntil(reader, start.value, LEN_PREFIX + n);
    if full.None? {
      return Err(UnexpectedEof);
    }
    var buf := full.value;
    assert buf + Joined(reader.chunks) == all;
    var payload := buf[LEN_PREFIX..LEN_PREFIX + n];
    assert payload == all[LEN_PREFIX..LEN_PREFIX + n];
    var item := c.read(payload);
    if item.None? {
      return Err(Cbor);
    }
    var leftover := buf[LEN_PREFIX + n..];
    assert leftover + Joined(reader.chunks) == all[LEN_PREFIX + n..];
    return Ok((item.value, leftover));
  }
}
