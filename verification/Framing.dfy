/** The wire format between the emitter and the daemon: a 4-byte big-endian length, then the
    body. The receiving side is the decoding loop of the test server, the repository's only
    statement of what the peer does. */
module Framing {
  type Byte = b: int | 0 <= b < 0x100
  type Bytes = seq<Byte>

  /** A body whose length fits the 32-bit header. */
  type Body = b: Bytes | |b| < 0x1_0000_0000

  const HEADER_SIZE := 4

  // ----- Encoding -----

  /** `n` in `k` big-endian bytes. */
  function BigEndian(n: nat, k: nat): (h: Bytes)
    ensures |h| == k
  {
    if k == 0 then [] else BigEndian(n / 0x100, k - 1) + [n % 0x100]
  }

  function FromBigEndian(h: Bytes): nat {
    if h == [] then 0 else 0x100 * FromBigEndian(h[..|h| - 1]) + h[|h| - 1]
  }

  function Pow256(k: nat): (p: nat)
    ensures 0 < p
  {
    if k == 0 then 1 else 0x100 * Pow256(k - 1)
  }

  lemma {:induction false} BigEndianRoundTrip(n: nat, k: nat)
    requires n < Pow256(k)
    ensures FromBigEndian(BigEndian(n, k)) == n
  {
    if k != 0 {
      BigEndianRoundTrip(n / 0x100, k - 1);
      assert BigEndian(n, k)[..k - 1] == BigEndian(n / 0x100, k - 1);
    }
  }

  lemma {:induction false} BigEndianRoundTripBack(h: Bytes)
    ensures FromBigEndian(h) < Pow256(|h|)
    ensures BigEndian(FromBigEndian(h), |h|) == h
  {
    if h != [] {
      BigEndianRoundTripBack(h[..|h| - 1]);
    }
  }

  lemma HeaderRange()
    ensures Pow256(HEADER_SIZE) == 0x1_0000_0000
  {
    assert Pow256(2) == 0x1_0000;
  }

  /** The length announced by the first four bytes. */
  function ReadU32BE(h: Bytes): (n: nat)
    requires HEADER_SIZE <= |h|
    ensures n < 0x1_0000_0000
  {
    HeaderRange();
    BigEndianRoundTripBack(h[..HEADER_SIZE]);
    FromBigEndian(h[..HEADER_SIZE])
  }

  function Encode(body: Body): (bytes: Bytes)
    ensures |bytes| == HEADER_SIZE + |body|
  {
    BigEndian(|body|, HEADER_SIZE) + body
  }

  function Stream(bodies: seq<Body>): Bytes {
    if bodies == [] then [] else Encode(bodies[0]) + Stream(bodies[1..])
  }

  lemma ConcatAssociative<T>(a: seq<T>, b: seq<T>, c: seq<T>)
    ensures a + b + c == a + (b + c)
  {
  }

  lemma {:induction false} StreamConcat(a: seq<Body>, b: seq<Body>)
    ensures Stream(a + b) == Stream(a) + Stream(b)
  {
    if a == [] {
      assert a + b == b;
    } else {
      StreamConcat(a[1..], b);
      ConcatAssociative(Encode(a[0]), Stream(a[1..]), Stream(b));
      assert (a + b)[1..] == a[1..] + b;
    }
  }

  lemma StreamSnoc(a: seq<Body>, body: Body)
    ensures Stream(a + [body]) == Stream(a) + Encode(body)
  {
    StreamConcat(a, [body]);
    assert Stream([body]) == Encode(body) + Stream([body][1..]);
  }

  lemma StreamCons(body: Body, later: seq<Body>)
    ensures Stream([body] + later) == Encode(body) + Stream(later)
  {
    assert ([body] + later)[1..] == later;
  }

  // ----- Decoding -----

  datatype Decoded = Decoded(frames: seq<Body>, rest: Bytes)

  /** No complete frame at the front of the buffer. */
  predicate Incomplete(buf: Bytes) {
    |buf| < HEADER_SIZE || |buf| < HEADER_SIZE + ReadU32BE(buf)
  }

  function Decode(buf: Bytes): Decoded
    decreases |buf|
  {
    if Incomplete(buf) then
      Decoded([], buf)
    else
      var end := HEADER_SIZE + ReadU32BE(buf);
      var tail := Decode(buf[end..]);
      Decoded([buf[HEADER_SIZE..end]] + tail.frames, tail.rest)
  }

  /** The test server's receiver: one per connection. */
  class Receiver {
    var buf: Bytes
    var frames: seq<Body>

    constructor ()
      ensures buf == [] && frames == []
    {
      buf, frames := [], [];
    }

    method OnData(chunk: Bytes)
      modifies this
      ensures frames == old(frames) + Decode(old(buf) + chunk).frames
      ensures buf == Decode(old(buf) + chunk).rest
    {
      buf := buf + chunk;
      ghost var all := buf;
      while HEADER_SIZE <= |buf|
        invariant old(frames) + Decode(all).frames == frames + Decode(buf).frames
        invariant Decode(all).rest == Decode(buf).rest
        decreases |buf|
      {
        var len := ReadU32BE(buf);
        if |buf| < HEADER_SIZE + len {
          break;
        }
        var frame, tail := buf[HEADER_SIZE..HEADER_SIZE + len], buf[HEADER_SIZE + len..];
        ConcatAssociative(frames, [frame], Decode(tail).frames);
        frames := frames + [frame];
        buf := tail;
      }
    }
  }

  // ----- The decoder inverts the encoder, and the encoder the decoder -----

  /** What is left over never holds a complete frame. */
  lemma {:induction false} RestIsIncomplete(buf: Bytes)
    ensures Incomplete(Decode(buf).rest)
    decreases |buf|
  {
    if !Incomplete(buf) {
      RestIsIncomplete(buf[HEADER_SIZE + ReadU32BE(buf)..]);
    }
  }

  lemma FrontFrame(buf: Bytes)
    requires !Incomplete(buf)
    ensures var end := HEADER_SIZE + ReadU32BE(buf);
            Encode(buf[HEADER_SIZE..end]) == buf[..end]
  {
    BigEndianRoundTripBack(buf[..HEADER_SIZE]);
  }

  /** A frame is four length bytes, the most significant first, and the body. */
  lemma HeaderBytes(body: Body)
    ensures var n, bytes := |body|, Encode(body);
            && bytes[0] == n / 0x100_0000 && bytes[1] == n / 0x1_0000 % 0x100
            && bytes[2] == n / 0x100 % 0x100 && bytes[3] == n % 0x100
            && bytes[4..] == body
  {
    var n := |body|;
    assert BigEndian(n / 0x100_0000, 1) == [n / 0x100_0000 % 0x100];
    assert BigEndian(n / 0x1_0000, 2) == BigEndian(n / 0x1_0000 / 0x100, 1) + [n / 0x1_0000 % 0x100];
    assert BigEndian(n / 0x100, 3) == BigEndian(n / 0x100 / 0x100, 2) + [n / 0x100 % 0x100];
    assert BigEndian(n, 4) == BigEndian(n / 0x100, 3) + [n % 0x100];
  }

  /** The length is read from them in the same order. */
  lemma HeaderRead(h: Bytes)
    requires 4 <= |h|
    ensures var a: int, b: int, c: int, d: int := h[0], h[1], h[2], h[3];
            ReadU32BE(h) == a * 0x100_0000 + b * 0x1_0000 + c * 0x100 + d
  {
    assert h[..4][..3] == h[..3] && h[..3][..2] == h[..2] && h[..2][..1] == h[..1] && h[..1][..0] == [];
    assert FromBigEndian(h[..1]) == h[0];
    assert FromBigEndian(h[..2]) == 0x100 * FromBigEndian(h[..1]) + h[1];
    assert FromBigEndian(h[..3]) == 0x100 * FromBigEndian(h[..2]) + h[2];
    assert FromBigEndian(h[..4]) == 0x100 * FromBigEndian(h[..3]) + h[3];
  }

  /** Decoding loses no byte: re-encoding the frames and appending the rest gives the input. */
  lemma {:induction false} DecodeIsExact(buf: Bytes)
    ensures Stream(Decode(buf).frames) + Decode(buf).rest == buf
    decreases |buf|
  {
    if !Incomplete(buf) {
      var end := HEADER_SIZE + ReadU32BE(buf);
      var frame, tail := buf[HEADER_SIZE..end], Decode(buf[end..]);
      calc {
        Stream([frame] + tail.frames) + tail.rest;
        { StreamCons(frame, tail.frames); }
        Encode(frame) + Stream(tail.frames) + tail.rest;
        { FrontFrame(buf); ConcatAssociative(buf[..end], Stream(tail.frames), tail.rest); }
        buf[..end] + (Stream(tail.frames) + tail.rest);
        { DecodeIsExact(buf[end..]); }
        buf[..end] + buf[end..];
        buf;
      }
    }
  }

  lemma AnnouncedLength(body: Body, buf: Bytes)
    requires HEADER_SIZE <= |buf|
    requires buf[..HEADER_SIZE] == Encode(body)[..HEADER_SIZE]
    ensures ReadU32BE(buf) == |body|
  {
    HeaderRange();
    BigEndianRoundTrip(|body|, HEADER_SIZE);
    assert Encode(body)[..HEADER_SIZE] == BigEndian(|body|, HEADER_SIZE);
  }

  lemma DecodeEncode(body: Body, tail: Bytes)
    ensures Decode(Encode(body) + tail)
            == Decoded([body] + Decode(tail).frames, Decode(tail).rest)
  {
    var buf := Encode(body) + tail;
    AnnouncedLength(body, buf);
    assert buf[HEADER_SIZE..HEADER_SIZE + |body|] == body;
    assert buf[HEADER_SIZE + |body|..] == tail;
  }

  lemma {:induction false} RoundTrip(bodies: seq<Body>, tail: Bytes)
    ensures Decode(Stream(bodies) + tail)
            == Decoded(bodies + Decode(tail).frames, Decode(tail).rest)
  {
    if bodies == [] {
      assert Stream(bodies) + tail == tail;
    } else {
      var first, later := bodies[0], bodies[1..];
      RoundTrip(later, tail);
      DecodeEncode(first, Stream(later) + tail);
      ConcatAssociative(Encode(first), Stream(later), tail);
      ConcatAssociative([first], later, Decode(tail).frames);
      assert bodies == [first] + later;
    }
  }

  /** The stream determines the frames. */
  lemma StreamInjective(a: seq<Body>, b: seq<Body>)
    requires Stream(a) == Stream(b)
    ensures a == b
  {
    RoundTrip(a, []);
    RoundTrip(b, []);
    assert Stream(a) + [] == Stream(a) && Stream(b) + [] == Stream(b);
    assert a + [] == a && b + [] == b;
  }

  /** A proper prefix of one encoded frame is incomplete. */
  lemma PartialFrameIncomplete(body: Body, p: Bytes)
    requires p < Encode(body)
    ensures Incomplete(p)
  {
    if HEADER_SIZE <= |p| {
      AnnouncedLength(body, p);
    }
  }

  lemma PrefixOfConcat(p: Bytes, a: Bytes, b: Bytes)
    requires p <= a + b && |p| < |a|
    ensures p < a
  {
    assert p == (a + b)[..|p|] == a[..|p|];
  }

  lemma SuffixOfPrefix(p: Bytes, a: Bytes, b: Bytes) returns (q: Bytes)
    requires p <= a + b && |a| <= |p|
    ensures p == a + q && q <= b
  {
    q := p[|a|..];
    assert p[..|a|] == (a + b)[..|p|][..|a|] == a;
    assert q == (a + b)[..|p|][|a|..] == b[..|q|];
  }

  /** Any received prefix of a stream of frames decodes, aligned, to its first `k` frames. */
  lemma {:induction false} PrefixDecodes(bodies: seq<Body>, p: Bytes) returns (k: nat)
    requires p <= Stream(bodies)
    ensures k <= |bodies|
    ensures Decode(p).frames == bodies[..k]
    ensures k < |bodies| ==> |Decode(p).rest| < |Encode(bodies[k])|
  {
    if bodies == [] {
      return 0;
    }
    var e := Encode(bodies[0]);
    var later := Stream(bodies[1..]);
    if |p| < |e| {
      PrefixOfConcat(p, e, later);
      PartialFrameIncomplete(bodies[0], p);
      return 0;
    }
    var q := SuffixOfPrefix(p, e, later);
    var j := PrefixDecodes(bodies[1..], q);
    DecodeEncode(bodies[0], q);
    k := j + 1;
    assert bodies[..k] == [bodies[0]] + bodies[1..][..j];
  }

  // ----- Chunking -----

  function Concat(chunks: seq<Bytes>): Bytes {
    if chunks == [] then [] else chunks[0] + Concat(chunks[1..])
  }

  /** What one chunk does to the receiver. */
  function Receive(d: Decoded, chunk: Bytes): Decoded {
    var e := Decode(d.rest + chunk);
    Decoded(d.frames + e.frames, e.rest)
  }

  /** Feeding the receiver chunk by chunk, from any state it can be in. */
  function Feed(d: Decoded, chunks: seq<Bytes>): Decoded
    decreases |chunks|
  {
    if chunks == [] then d else Feed(Receive(d, chunks[0]), chunks[1..])
  }

  lemma DecodeFirst(a: Bytes, b: Bytes)
    requires !Incomplete(a)
    ensures var end := HEADER_SIZE + ReadU32BE(a);
            var tail := Decode(a[end..] + b);
            Decode(a + b) == Decoded([a[HEADER_SIZE..end]] + tail.frames, tail.rest)
  {
    var end := HEADER_SIZE + ReadU32BE(a);
    assert (a + b)[..HEADER_SIZE] == a[..HEADER_SIZE];
    assert (a + b)[HEADER_SIZE..end] == a[HEADER_SIZE..end];
    assert (a + b)[end..] == a[end..] + b;
  }

  lemma {:induction false} DecodeConcat(a: Bytes, b: Bytes)
    ensures Decode(a + b) == Receive(Decode(a), b)
    decreases |a|
  {
    if !Incomplete(a) {
      var end := HEADER_SIZE + ReadU32BE(a);
      DecodeFirst(a, b);
      DecodeConcat(a[end..], b);
    }
  }

  lemma {:induction false} FeedFrom(a: Bytes, chunks: seq<Bytes>)
    ensures Feed(Decode(a), chunks) == Decode(a + Concat(chunks))
    decreases |chunks|
  {
    if chunks == [] {
      assert a + Concat(chunks) == a;
    } else {
      var c := a + chunks[0];
      DecodeConcat(a, chunks[0]);
      FeedFrom(c, chunks[1..]);
      ConcatAssociative(a, chunks[0], Concat(chunks[1..]));
    }
  }

  /** The frames received do not depend on how the stream was cut into chunks. */
  lemma ChunkingIrrelevant(chunks: seq<Bytes>, chunks': seq<Bytes>)
    requires Concat(chunks) == Concat(chunks')
    ensures Feed(Decoded([], []), chunks) == Feed(Decoded([], []), chunks') == Decode(Concat(chunks))
  {
    FeedFrom([], chunks);
    FeedFrom([], chunks');
    assert [] + Concat(chunks) == Concat(chunks);
    assert Decode([]) == Decoded([], []);
  }
}
