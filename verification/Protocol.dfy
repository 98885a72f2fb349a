/**
  The messages of the test protocols and their bytes: the framed header that opens
  every swarm stream, the ping and pong of the latency test, and the zero-padded
  request that opens every stream of a doctor session.
*/
module Protocol {
  import opened Postcard

  const DEFAULT_CHUNK_SIZE: U64 := 1024 * 1024

  datatype TestProtocolType = Throughput | Latency

  datatype Header = Header(
    testType: TestProtocolType,
    dataSize: U64,
    parallelStreams: Option<U64>,
    chunkSize: Option<U64>)

  datatype LatencyMessage = Ping(n: U32) | Pong(n: U32)

  datatype TestStreamRequest =
    | Echo(bytes: U64)
    | Drain(bytes: U64)
    | Send(bytes: U64, blockSize: U32)

  /** One byte of variant tag, ten of byte count, five of block size. */
  const REQUEST_MAX_SIZE := 16

  function Repeat(b: Byte, n: nat): (s: seq<Byte>)
    ensures |s| == n
    ensures forall i :: 0 <= i < n ==> s[i] == b
  {
    seq(n, _ => b)
  }

  // Primitive fields

  function TakeU64(s: seq<Byte>): (d: Decoded<U64>) {
    CapacityOfWidths();
    match TakeVarint(W64, s)
    case Got(v, rest) => TakenFits(W64, s); Got(v, rest)
    case Bad => Bad
  }

  function TakeU32(s: seq<Byte>): (d: Decoded<U32>) {
    CapacityOfWidths();
    match TakeVarint(W32, s)
    case Got(v, rest) => TakenFits(W32, s); Got(v, rest)
    case Bad => Bad
  }

  /** A variant tag, which must name one of `variants` variants. */
  function TakeTag(variants: nat, s: seq<Byte>): (d: Decoded<nat>)
    ensures d.Got? ==> d.value < variants
  {
    match TakeU32(s)
    case Got(tag, rest) => if tag < variants then Got(tag, rest) else Bad
    case Bad => Bad
  }

  function EncodeOption(o: Option<U64>): (s: seq<Byte>) {
    match o
    case None => [0]
    case Some(v) => [1] + Varint(v)
  }

  function TakeOption(s: seq<Byte>): (d: Decoded<Option<U64>>) {
    if s == [] then Bad
    else if s[0] == 0 then Got(None, s[1..])
    else if s[0] == 1 then
      match TakeU64(s[1..])
      case Got(v, rest) => Got(Some(v), rest)
      case Bad => Bad
    else Bad
  }

  lemma U64RoundTrip(n: U64, t: seq<Byte>)
    ensures TakeU64(Varint(n) + t) == Got(n, t) && |Varint(n)| <= 10
  {
    CapacityOfWidths();
    VarintRoundTrip(W64, n, t);
  }

  lemma U32RoundTrip(n: U32, t: seq<Byte>)
    ensures TakeU32(Varint(n) + t) == Got(n, t) && |Varint(n)| <= 5
  {
    CapacityOfWidths();
    VarintRoundTrip(W32, n, t);
  }

  lemma OptionRoundTrip(o: Option<U64>, t: seq<Byte>)
    ensures TakeOption(EncodeOption(o) + t) == Got(o, t) && |EncodeOption(o)| <= 11
  {
    var s := EncodeOption(o) + t;
    if o.Some? {
      assert s[1..] == Varint(o.value) + t;
      U64RoundTrip(o.value, t);
    } else {
      assert s[1..] == t;
    }
  }

  lemma TagRoundTrip(variants: nat, tag: nat, t: seq<Byte>)
    requires tag < variants && tag < 128
    ensures TakeTag(variants, [tag] + t) == Got(tag, t)
  {
    assert ([tag] + t)[1..] == t;
  }

  // The framed header

  function EncodeHeader(h: Header): seq<Byte> {
    [if h.testType.Throughput? then 0 else 1]
    + Varint(h.dataSize) + EncodeOption(h.parallelStreams) + EncodeOption(h.chunkSize)
  }

  function TakeHeader(s: seq<Byte>): (d: Decoded<Header>) {
    match TakeTag(2, s) case Bad => Bad case Got(tag, s1) =>
    match TakeU64(s1) case Bad => Bad case Got(size, s2) =>
    match TakeOption(s2) case Bad => Bad case Got(streams, s3) =>
    match TakeOption(s3) case Bad => Bad case Got(chunk, s4) =>
    Got(Header(if tag == 0 then Throughput else Latency, size, streams, chunk), s4)
  }

  lemma TakeHeaderFields(s: seq<Byte>, tag: nat, s1: seq<Byte>, size: U64, s2: seq<Byte>,
                         streams: Option<U64>, s3: seq<Byte>, chunk: Option<U64>, s4: seq<Byte>)
    requires TakeTag(2, s) == Got(tag, s1) && TakeU64(s1) == Got(size, s2)
    requires TakeOption(s2) == Got(streams, s3) && TakeOption(s3) == Got(chunk, s4)
    ensures TakeHeader(s) == Got(Header(if tag == 0 then Throughput else Latency, size, streams, chunk), s4)
  {
  }

  lemma Associate(a: seq<Byte>, b: seq<Byte>, c: seq<Byte>, d: seq<Byte>, t: seq<Byte>)
    ensures a + b + c + d + t == a + (b + (c + (d + t)))
  {
  }

  lemma HeaderRoundTrip(h: Header, t: seq<Byte>)
    ensures TakeHeader(EncodeHeader(h) + t) == Got(h, t)
    ensures 4 <= |EncodeHeader(h)| <= 33
  {
    var tag: Byte := if h.testType.Throughput? then 0 else 1;
    var s3 := EncodeOption(h.chunkSize) + t;
    var s2 := EncodeOption(h.parallelStreams) + s3;
    var s1 := Varint(h.dataSize) + s2;
    Associate([tag], Varint(h.dataSize), EncodeOption(h.parallelStreams), EncodeOption(h.chunkSize), t);
    HeaderFieldsRoundTrip(h, tag, EncodeHeader(h) + t, s1, s2, s3, t);
    U64RoundTrip(h.dataSize, []);
    OptionRoundTrip(h.parallelStreams, []);
    OptionRoundTrip(h.chunkSize, []);
  }

  lemma HeaderFieldsRoundTrip(h: Header, tag: Byte, s: seq<Byte>, s1: seq<Byte>, s2: seq<Byte>, s3: seq<Byte>, t: seq<Byte>)
    requires tag == if h.testType.Throughput? then 0 else 1
    requires s == [tag] + s1 && s1 == Varint(h.dataSize) + s2
    requires s2 == EncodeOption(h.parallelStreams) + s3 && s3 == EncodeOption(h.chunkSize) + t
    ensures TakeHeader(s) == Got(h, t)
  {
    assert TakeTag(2, s) == Got(tag, s1) by { TagRoundTrip(2, tag, s1); }
    assert TakeU64(s1) == Got(h.dataSize, s2) by { U64RoundTrip(h.dataSize, s2); }
    assert TakeOption(s2) == Got(h.parallelStreams, s3) by { OptionRoundTrip(h.parallelStreams, s3); }
    assert TakeOption(s3) == Got(h.chunkSize, t) by { OptionRoundTrip(h.chunkSize, t); }
    TakeHeaderFields(s, tag, s1, h.dataSize, s2, h.parallelStreams, s3, h.chunkSize, t);
  }

  /** A two-byte little-endian length, cast to 16 bits, and then the body. */
  function Framed(body: seq<Byte>): (s: seq<Byte>)
    ensures |s| == 2 + |body|
  {
    var len := |body| % 0x1_0000;
    [len % 256, len / 256] + body
  }

  /** The header as it is sent. */
  function Frame(h: Header): seq<Byte> {
    Framed(EncodeHeader(h))
  }

  /** How many bytes a reader that already has `acc` wants in all: the length first, then the body. */
  function FrameLength(acc: seq<Byte>): nat {
    if |acc| < 2 then 2 else 2 + (acc[0] as int) + 256 * (acc[1] as int)
  }

  /** What a reader of exactly one frame makes of the bytes it receives. */
  function ReadFrame(s: seq<Byte>): (d: Decoded<Header>) {
    if |s| < 2 || |s| < FrameLength(s) then Bad
    else
      match TakeHeader(s[2..FrameLength(s)])
      case Got(h, _) => Got(h, s[FrameLength(s)..])
      case Bad => Bad
  }

  lemma LengthBytes(body: seq<Byte>, s: seq<Byte>)
    requires |body| < 0x1_0000 && |s| >= 2 && s[..2] == Framed(body)[..2]
    ensures FrameLength(s) == 2 + |body|
  {
    assert s[0] == s[..2][0] && s[1] == s[..2][1];
    assert Framed(body)[..2][0] == |body| % 256 && Framed(body)[..2][1] == |body| / 256;
  }

  /** The length field is never truncated, and any two bytes of a frame tell its whole length. */
  lemma FrameLengthIsExact(h: Header, s: seq<Byte>)
    requires |s| >= 2 && s[..2] == Frame(h)[..2]
    ensures FrameLength(s) == |Frame(h)| <= 35
  {
    HeaderRoundTrip(h, []);
    LengthBytes(EncodeHeader(h), s);
  }

  /** Reading a frame gives back the header and leaves exactly what follows it. */
  lemma FrameRoundTrip(h: Header, t: seq<Byte>)
    ensures ReadFrame(Frame(h) + t) == Got(h, t)
    ensures TakeHeader(Frame(h)[2..]) == Got(h, [])
  {
    var body, s := EncodeHeader(h), Frame(h) + t;
    HeaderRoundTrip(h, []);
    assert body + [] == body;
    FrameLengthIsExact(h, s);
    assert s[2..|Frame(h)|] == body == Frame(h)[2..];
    assert s[|Frame(h)|..] == t;
  }

  /** No frame cut short is read as a header. */
  lemma FramePrefixIsBad(h: Header, k: nat)
    requires k < |Frame(h)|
    ensures ReadFrame(Frame(h)[..k]) == Bad
  {
    if k >= 2 {
      assert Frame(h)[..k][..2] == Frame(h)[..2];
      FrameLengthIsExact(h, Frame(h)[..k]);
    }
  }

  // Ping and pong

  function EncodeLatency(m: LatencyMessage): (s: seq<Byte>)
    ensures |s| >= 2
  {
    [if m.Ping? then 0 else 1] + Varint(m.n)
  }

  /** Like the library's `from_bytes`, this ignores unused trailing bytes. */
  function DecodeLatency(s: seq<Byte>): (o: Option<LatencyMessage>) {
    match TakeTag(2, s) case Bad => None case Got(tag, s1) =>
    match TakeU32(s1) case Bad => None case Got(n, _) =>
    Some(if tag == 0 then Ping(n) else Pong(n))
  }

  /** A message survives its encoding, and no cut-off encoding is any message at all. */
  lemma LatencyPrefixDecodes(m: LatencyMessage, k: nat)
    requires k <= |EncodeLatency(m)|
    ensures |EncodeLatency(m)| <= 6
    ensures DecodeLatency(EncodeLatency(m)[..k]) == if k == |EncodeLatency(m)| then Some(m) else None
  {
    var tag: Byte := if m.Ping? then 0 else 1;
    var v := Varint(m.n);
    U32RoundTrip(m.n, []);
    assert v + [] == v;
    if k >= 1 {
      assert EncodeLatency(m)[..k] == [tag] + v[..k - 1];
      TagRoundTrip(2, tag, v[..k - 1]);
      if k <= |v| {
        VarintPrefixIsBad(W32, m.n, k - 1);
      } else {
        assert v[..k - 1] == v;
      }
    }
  }

  // Doctor requests

  function EncodeRequest(r: TestStreamRequest): seq<Byte> {
    match r
    case Echo(bytes) => [0] + Varint(bytes)
    case Drain(bytes) => [1] + Varint(bytes)
    case Send(bytes, block) => [2] + Varint(bytes) + Varint(block)
  }

  function TakeRequest(s: seq<Byte>): (d: Decoded<TestStreamRequest>) {
    match TakeTag(3, s) case Bad => Bad case Got(tag, s1) =>
    match TakeU64(s1) case Bad => Bad case Got(bytes, s2) =>
    if tag == 0 then Got(Echo(bytes), s2)
    else if tag == 1 then Got(Drain(bytes), s2)
    else
      match TakeU32(s2)
      case Got(block, s3) => Got(Send(bytes, block), s3)
      case Bad => Bad
  }

  lemma RequestRoundTrip(r: TestStreamRequest, t: seq<Byte>)
    ensures TakeRequest(EncodeRequest(r) + t) == Got(r, t)
    ensures 2 <= |EncodeRequest(r)| <= REQUEST_MAX_SIZE
  {
    var tag: Byte := if r.Echo? then 0 else if r.Drain? then 1 else 2;
    var s2 := if r.Send? then Varint(r.blockSize) + t else t;
    assert EncodeRequest(r) + t == [tag] + (Varint(r.bytes) + s2);
    TagRoundTrip(3, tag, Varint(r.bytes) + s2);
    U64RoundTrip(r.bytes, s2);
    if r.Send? {
      U32RoundTrip(r.blockSize, t);
      assert TakeRequest([tag] + (Varint(r.bytes) + s2)) == Got(r, t);
    }
  }

  /** The fixed-size buffer a request travels in, zero after the encoding. */
  function PaddedRequest(r: TestStreamRequest): (s: seq<Byte>)
    ensures |s| == REQUEST_MAX_SIZE
  {
    RequestRoundTrip(r, []);
    EncodeRequest(r) + Repeat(0, REQUEST_MAX_SIZE - |EncodeRequest(r)|)
  }

  /** Decoding the padded buffer gives the request and consumes none of the padding. */
  lemma PaddedRequestRoundTrip(r: TestStreamRequest)
    ensures |EncodeRequest(r)| <= REQUEST_MAX_SIZE
    ensures TakeRequest(PaddedRequest(r)) == Got(r, PaddedRequest(r)[|EncodeRequest(r)|..])
    ensures forall b :: b in PaddedRequest(r)[|EncodeRequest(r)|..] ==> b == 0
  {
    RequestRoundTrip(r, []);
    var pad := Repeat(0, REQUEST_MAX_SIZE - |EncodeRequest(r)|);
    RequestRoundTrip(r, pad);
    assert PaddedRequest(r)[|EncodeRequest(r)|..] == pad;
  }

  // The bytes themselves

  lemma PartsInOrder(tag: Byte, a: seq<Byte>, b: seq<Byte>, c: seq<Byte>, s: seq<Byte>)
    requires s == [tag] + a + b + c
    ensures s[0] == tag && s[1..1 + |a|] == a
    ensures s[1 + |a|..1 + |a| + |b|] == b && s[1 + |a| + |b|..] == c
  {
  }

  /** A header's type comes first, in declaration order, and then its fields in theirs. */
  lemma LayoutOfHeader(h: Header)
    ensures var s, k := EncodeHeader(h), 1 + |Varint(h.dataSize)|;
            var m := k + |EncodeOption(h.parallelStreams)|;
            && s[0] == (if h.testType == Throughput then 0 else 1)
            && k <= m <= |s|
            && s[1..k] == Varint(h.dataSize)
            && s[k..m] == (match h.parallelStreams case None => [0] case Some(n) => [1] + Varint(n))
            && s[m..] == (match h.chunkSize case None => [0] case Some(n) => [1] + Varint(n))
  {
    PartsInOrder(if h.testType == Throughput then 0 else 1, Varint(h.dataSize),
                 EncodeOption(h.parallelStreams), EncodeOption(h.chunkSize), EncodeHeader(h));
  }

  /** The tags of messages and requests, in declaration order. */
  lemma TagsOfMessages(m: LatencyMessage, r: TestStreamRequest)
    ensures EncodeLatency(m) == match m case Ping(n) => [0] + Varint(n) case Pong(n) => [1] + Varint(n)
    ensures EncodeRequest(r)[0] == match r case Echo(_) => 0 case Drain(_) => 1 case Send(_, _) => 2
    ensures EncodeRequest(r)[1..] == Varint(r.bytes) + if r.Send? then Varint(r.blockSize) else []
  {
  }

  lemma FramedBytes(body: seq<Byte>)
    requires |body| < 0x1_0000
    ensures Framed(body)[0] as int + 256 * Framed(body)[1] as int == |body|
    ensures Framed(body)[2..] == body
  {
  }

  /** The length of a header's body comes first, its low byte before its high byte. */
  lemma LayoutOfFrame(h: Header)
    ensures Frame(h)[0] == |EncodeHeader(h)| && Frame(h)[1] == 0 && Frame(h)[2..] == EncodeHeader(h)
  {
    HeaderRoundTrip(h, []);
    FramedBytes(EncodeHeader(h));
  }

  lemma VarintOf300()
    ensures Varint(300) == [0xAC, 0x02]
  {
    assert Varint(300) == [0xAC] + Varint(2);
  }

  /** Two headers, byte by byte. */
  lemma HeaderExamples()
    ensures Frame(Header(Throughput, 300, Some(1), Some(16384)))
         == [9, 0, 0, 0xAC, 0x02, 1, 1, 1, 0x80, 0x80, 0x01]
    ensures Frame(Header(Latency, 2, None, None)) == [4, 0, 1, 2, 0, 0]
  {
    VarintExamples();
    VarintOf300();
    assert EncodeHeader(Header(Throughput, 300, Some(1), Some(16384)))
        == [0, 0xAC, 0x02, 1, 1, 1, 0x80, 0x80, 0x01];
    assert EncodeHeader(Header(Latency, 2, None, None)) == [1, 2, 0, 0];
  }

  /** A ping, a pong and a request, byte by byte. */
  lemma MessageExamples()
    ensures EncodeLatency(Ping(5)) == [0, 5] && EncodeLatency(Pong(300)) == [1, 0xAC, 0x02]
    ensures PaddedRequest(Send(300, 16384)) == [2, 0xAC, 0x02, 0x80, 0x80, 0x01, 0, 0, 0, 0, 0, 0, 0, 0, 0, 0]
  {
    VarintExamples();
    VarintOf300();
    assert EncodeRequest(Send(300, 16384)) == [2, 0xAC, 0x02, 0x80, 0x80, 0x01];
  }

  /** The buffer of a request is no larger than the longest request. */
  lemma LongestRequest()
    ensures |EncodeRequest(Send(0xFFFF_FFFF_FFFF_FFFF, 0xFFFF_FFFF))| == REQUEST_MAX_SIZE == 16
  {
    LongestVarint(0xFFFF_FFFF_FFFF_FFFF, 9);
    LongestVarint(0xFFFF_FFFF, 4);
  }

  /** With `k` full groups below it, one more byte is needed. */
  lemma {:induction false} LongestVarint(n: nat, k: nat)
    requires 0 < Above(n, k) < 128
    ensures |Varint(n)| == k + 1
  {
    if k == 0 {
    } else {
      if n < 128 {
        AboveSmall(n, k);
        assert false;
      }
      LongestVarint(n / 128, k - 1);
    }
  }

  lemma {:induction false} AboveSmall(n: nat, k: nat)
    requires n < 128 && k > 0
    ensures Above(n, k) == 0
  {
    assert n / 128 == 0;
    if k == 1 {
    } else {
      AboveSmall(0, k - 1);
    }
  }
}
