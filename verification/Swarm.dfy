/**
  The stream handlers of a swarm node and the latency test that talks to them. The contracts
  speak of the bytes on the streams only, so they hold however the network cuts those bytes.
*/
module Swarm {
  import opened Postcard
  import opened Protocol
  import opened Chunking
  import opened Streams
  import opened LatencyStats

  const READ_BUFFER := 1024

  /** The largest buffer that can be asked for; beyond it the request itself panics. */
  const MAX_BUFFER := 0x7FFF_FFFF_FFFF_FFFF

  /** What a node answers to the bytes of a latency stream after its header, if anything. */
  function LatencyReply(dataSize: U64, bytes: seq<Byte>): Option<seq<Byte>> {
    if dataSize > MAX_BUFFER || |bytes| < dataSize then None
    else
      match DecodeLatency(bytes[..dataSize])
      case Some(Ping(n)) => Some(EncodeLatency(Pong(n)))
      case _ => None
  }

  /** The writes a node makes on a stream on which it receives `bytes`. */
  function Response(bytes: seq<Byte>): seq<seq<Byte>> {
    match ReadFrame(bytes)
    case Bad => []
    case Got(h, rest) =>
      if h.testType.Latency? then
        match LatencyReply(h.dataSize, rest)
        case Some(reply) => [reply]
        case None => []
      else Fills(FILL, Blocks(h.dataSize, ServerChunk(h)))
  }

  /** What a client sends for ping `i`: a header announcing the ping's length, and the ping. */
  function PingHeader(i: U32): Header {
    LatencyPrefixDecodes(Ping(i), 0);
    Header(Latency, |EncodeLatency(Ping(i))|, None, None)
  }

  function PingBytes(i: U32): seq<Byte> {
    Frame(PingHeader(i)) + EncodeLatency(Ping(i))
  }

  /** The two writes it sends them in. */
  function PingWrites(i: U32): (s: seq<seq<Byte>>)
    ensures Concat(s) == PingBytes(i)
  {
    ConcatTwo(Frame(PingHeader(i)), EncodeLatency(Ping(i)));
    [Frame(PingHeader(i)), EncodeLatency(Ping(i))]
  }

  method ToBytes(h: Header) returns (result: seq<Byte>)
    ensures forall t :: ReadFrame(result + t) == Got(h, t)
    ensures result == Frame(h) && |result| <= 35
  {
    var body := EncodeHeader(h);
    var len := |body| % 0x1_0000;
    result := [];
    result := result + [len % 256, len / 256];
    result := result + body;
    HeaderRoundTrip(h, []);
    forall t ensures ReadFrame(result + t) == Got(h, t) { FrameRoundTrip(h, t); }
  }

  method ReadFrom(recv: RecvStream) returns (o: Option<Header>)
    requires recv.Valid()
    modifies recv
    ensures recv.Valid()
    ensures match ReadFrame(old(recv.Unread()))
            case Got(h, rest) => o == Some(h) && recv.Unread() == rest
            case Bad => o == None
  {
    ghost var s := recv.Unread();
    var lenBuf := recv.ReadExact(2);
    if lenBuf.None? {
      return None;
    }
    var headerLen := (lenBuf.value[0] as int) + 256 * (lenBuf.value[1] as int);
    assert |s| >= 2 && FrameLength(s) == 2 + headerLen;
    var headerBuf := recv.ReadExact(headerLen);
    if headerBuf.None? {
      return None;
    }
    assert headerBuf.value == s[2..][..headerLen] == s[2..FrameLength(s)];
    assert recv.Unread() == s[2..][headerLen..] == s[FrameLength(s)..];
    match TakeHeader(headerBuf.value) {
      case Got(h, _) => return Some(h);
      case Bad => return None;
    }
  }

  /** The peer chooses `header`; with a size that no buffer can have the handler panics before it reads. */
  method HandleLatencyTest(send: SendStream, recv: RecvStream, header: Header) returns (panicked: bool)
    requires recv.Valid()
    modifies send, recv
    ensures panicked <==> header.dataSize > MAX_BUFFER
    ensures panicked ==> send.writes == old(send.writes) && send.finished == old(send.finished)
    ensures !panicked ==>
              var replies := match LatencyReply(header.dataSize, old(recv.Unread())) case Some(r) => [r] case None => [];
              && send.writes == old(send.writes) + replies[..old(send.Writable(|replies|))]
              && send.finished == (old(send.finished) || old(send.budget) > |replies|)
  {
    if header.dataSize > MAX_BUFFER {
      return true;
    }
    var pingBuf := recv.ReadExact(header.dataSize);
    if pingBuf.Some? {
      var message := DecodeLatency(pingBuf.value);
      if message.Some? && message.value.Ping? {
        var pong := EncodeLatency(Pong(message.value.n));
        var _ := send.WriteAll(pong);
      }
    }
    var _ := send.Finish();
    return false;
  }

  /** Whether the header on a stream makes the handler panic. */
  predicate HandlerPanics(bytes: seq<Byte>) {
    match ReadFrame(bytes)
    case Bad => false
    case Got(h, _) => h.testType.Latency? && h.dataSize > MAX_BUFFER
  }

  /** Serves one stream: reads the header and runs the test it names, with the same effect whichever task is done first. */
  method HandleIncomingTestStream(send: SendStream, recv: RecvStream, drainFirst: bool) returns (panicked: bool)
    requires recv.Valid()
    modifies send, recv
    ensures panicked <==> HandlerPanics(old(recv.Unread()))
    ensures var writes := Response(old(recv.Unread()));
            send.writes == old(send.writes) + writes[..old(send.Writable(|writes|))]
    ensures var writes := Response(old(recv.Unread()));
            ReadFrame(old(recv.Unread())).Got? && !panicked && old(send.budget) >= |writes| + 2 ==> send.finished
    ensures panicked ==> send.finished == old(send.finished)
  {
    var header := ReadFrom(recv);
    if header.None? {
      return false;
    }
    match header.value.testType {
      case Latency => panicked := HandleLatencyTest(send, recv, header.value);
      case Throughput =>
        var chunkSize := GetOr(header.value.chunkSize, DEFAULT_CHUNK_SIZE);
        var _ := HandleBidirectionalTransfer(send, recv, header.value.dataSize, chunkSize, drainFirst);
        panicked := false;
    }
  }

  // What the responses are

  /** A node answers a throughput header with as many bytes as it announces, whatever follows the header. */
  lemma ThroughputIsAnswered(h: Header, rest: seq<Byte>)
    requires h.testType == Throughput
    ensures var writes := Response(Frame(h) + rest);
            var announced := if h.chunkSize.Some? then h.chunkSize.value else 1_048_576;
            var chunk := if announced < 1024 then 1024 else if announced > 16_777_216 then 16_777_216 else announced;
            && Concat(writes) == Repeat(0xAB, h.dataSize)
            && (forall i :: 0 <= i < |writes| ==> 0 < |writes[i]| <= chunk)
            && (forall i :: 0 <= i < |writes| - 1 ==> |writes[i]| == chunk)
    ensures !HandlerPanics(Frame(h) + rest)
  {
    FrameRoundTrip(h, rest);
    SentData(h.dataSize, GetOr(h.chunkSize, DEFAULT_CHUNK_SIZE));
  }

  /**
    A node answers a latency header exactly if as many bytes as announced follow and are a
    ping, and then with one write, the pong of the same number. It panics exactly for a size of
    2^63 bytes or more.
  */
  lemma LatencyIsAnsweredIff(h: Header, rest: seq<Byte>)
    requires h.testType == Latency
    ensures HandlerPanics(Frame(h) + rest) <==> h.dataSize >= 0x8000_0000_0000_0000
    ensures Response(Frame(h) + rest) != [] <==>
              && h.dataSize < 0x8000_0000_0000_0000 && h.dataSize <= |rest|
              && DecodeLatency(rest[..h.dataSize]).Some? && DecodeLatency(rest[..h.dataSize]).value.Ping?
    ensures Response(Frame(h) + rest) != [] ==>
              Response(Frame(h) + rest) == [EncodeLatency(Pong(DecodeLatency(rest[..h.dataSize]).value.n))]
  {
    FrameRoundTrip(h, rest);
  }

  /** Bytes that begin with no readable header are not answered. */
  lemma UnreadableIsNotAnswered(bytes: seq<Byte>)
    requires ReadFrame(bytes).Bad?
    ensures Response(bytes) == [] && !HandlerPanics(bytes)
  {
  }

  // Pings

  /** A node that receives ping `i` answers with exactly an encoding of pong `i`. */
  lemma PingIsAnswered(i: U32)
    ensures Response(PingBytes(i)) == [EncodeLatency(Pong(i))] && !HandlerPanics(PingBytes(i))
  {
    var ping := EncodeLatency(Ping(i));
    FrameRoundTrip(PingHeader(i), ping);
    LatencyPrefixDecodes(Ping(i), |ping|);
    assert ping[..|ping|] == ping;
  }

  /** What the client reads first of an answer that arrives as `fragments`. */
  function FirstRead(fragments: seq<seq<Byte>>): (first: seq<Byte>)
    ensures fragments != [] && |fragments[0]| <= 1024 ==> first == fragments[0]
    ensures fragments != [] && |fragments[0]| > 1024 ==> |first| == 1024
  {
    if fragments == [] then [] else fragments[0][..Min(READ_BUFFER, |fragments[0]|)]
  }

  /**
    The client reads once and takes what it gets. It accepts the answer exactly when the whole
    pong came in one fragment; a pong cut in two fails the ping, and is never misread.
  */
  lemma PongAcceptedIffWhole(i: U32, fragments: seq<seq<Byte>>)
    requires Concat(fragments) == EncodeLatency(Pong(i)) && forall k :: 0 <= k < |fragments| ==> fragments[k] != []
    ensures DecodeLatency(FirstRead(fragments)) == if |fragments| == 1 then Some(Pong(i)) else None
  {
    WholeMessage(Pong(i), FirstRead(fragments), fragments);
  }

  lemma WholeMessage(m: LatencyMessage, first: seq<Byte>, fragments: seq<seq<Byte>>)
    requires Concat(fragments) == EncodeLatency(m) && forall k :: 0 <= k < |fragments| ==> fragments[k] != []
    requires first == FirstRead(fragments)
    ensures DecodeLatency(first) == if |fragments| == 1 then Some(m) else None
  {
    FirstPart(fragments);
    assert |EncodeLatency(m)| <= 6 by { LatencyPrefixDecodes(m, 0); }
    assert first == fragments[0];
    var k := |fragments[0]|;
    assert first == EncodeLatency(m)[..k];
    LatencyPrefixDecodes(m, k);
  }

  /** Whether a ping on this stream will count, as far as the streams and the timer decide it. */
  ghost predicate PingSucceeds(send: SendStream, recv: RecvStream, inTime: bool)
    reads send, recv
  {
    !send.finished && send.budget >= 3 && inTime && recv.fragments != [] && DecodeLatency(FirstRead(recv.fragments)).Some?
  }

  /** Against a node that answers with pong `i`: a ping counts exactly when the pong is in time and whole. */
  lemma PingCountsIff(i: U32, send: SendStream, recv: RecvStream, inTime: bool)
    requires recv.Valid() && Response(PingBytes(i)) == [recv.Unread()]
    ensures PingSucceeds(send, recv, inTime)
       <==> !send.finished && send.budget >= 3 && inTime && |recv.fragments| == 1
  {
    PingIsAnswered(i);
    PongAcceptedIffWhole(i, recv.fragments);
  }

  method PingOnce(i: U32, send: SendStream, recv: RecvStream, inTime: bool) returns (ok: bool)
    requires recv.Valid()
    modifies send, recv
    ensures ok == old(PingSucceeds(send, recv, inTime))
    ensures ok ==> Pinged(send, old(send.writes), PingWrites(i))
  {
    var ping := EncodeLatency(Ping(i));
    LatencyPrefixDecodes(Ping(i), 0);
    var headerBytes := ToBytes(Header(Latency, |ping|, None, None));
    var sentHeader := send.WriteAll(headerBytes);
    if !sentHeader { return false; }
    var sentPing := send.WriteAll(ping);
    if !sentPing { return false; }
    var finished := send.Finish();
    if !finished || !inTime { return false; }
    var r := recv.Read(READ_BUFFER);
    return r.Data? && DecodeLatency(r.bytes).Some?;
  }

  /** After what it had sent before, the stream has carried these writes and is finished. */
  ghost predicate Pinged(send: SendStream, before: seq<seq<Byte>>, writes: seq<seq<Byte>>)
    reads send
  {
    send.finished && send.writes == before + writes
  }

  // The latency test

  /**
    What the network and the clock will do with one ping: whether a stream can be opened, after
    how many calls it fails, what arrives on it and whether in time, and how long it takes.
  */
  datatype Exchange = Exchange(opens: bool, budget: nat, fragments: seq<seq<Byte>>, broken: bool, inTime: bool, elapsed: nat) {
    predicate Valid() {
      forall i :: 0 <= i < |fragments| ==> fragments[i] != []
    }

    predicate Counts() {
      opens && budget >= 3 && inTime && fragments != [] && DecodeLatency(FirstRead(fragments)).Some?
    }
  }

  /** The measured times of the exchanges. */
  function Times(network: seq<Exchange>): (ns: seq<nat>)
    ensures |ns| == |network| && forall i :: 0 <= i < |ns| ==> ns[i] == network[i].elapsed
  {
    seq(|network|, i requires 0 <= i < |network| => network[i].elapsed)
  }

  /** The writes of the first `n` pings. */
  function PingList(n: nat): (s: seq<seq<seq<Byte>>>)
    requires n <= 0x1_0000_0000
    ensures |s| == n
  {
    if n == 0 then [] else PingList(n - 1) + [PingWrites(n - 1)]
  }

  lemma {:induction false} PingListAt(n: nat, i: nat)
    requires i < n <= 0x1_0000_0000
    ensures PingList(n)[i] == PingWrites(i) && Concat(PingList(n)[i]) == PingBytes(i)
  {
    if i == n - 1 {
    } else {
      PingListAt(n - 1, i);
    }
  }

  /** Opens a stream and pings on it; `sent` is what it has carried if the ping counts. */
  method OpenAndPing(i: U32, x: Exchange) returns (ok: bool, ghost sent: seq<seq<Byte>>)
    requires x.Valid()
    ensures ok == x.Counts()
    ensures ok ==> sent == PingWrites(i)
  {
    if !x.opens {
      return false, [];
    }
    var send := new SendStream(x.budget);
    var recv := new RecvStream(x.fragments, x.broken);
    ok := PingOnce(i, send, recv, x.inTime);
    sent := send.writes;
    assert [] + PingWrites(i) == PingWrites(i);
  }

  /** Pings in turn, on a stream each, until one fails. */
  method PingAll(iterations: U32, network: seq<Exchange>)
    returns (failed: Option<nat>, latencies: seq<nat>, ghost sent: seq<seq<seq<Byte>>>)
    requires |network| == iterations && forall i :: 0 <= i < iterations ==> network[i].Valid()
    ensures var done := if failed.Some? then failed.value else iterations;
            && (failed.Some? ==> done < iterations && !network[done].Counts())
            && (forall i :: 0 <= i < done ==> network[i].Counts())
            && latencies == Times(network)[..done] && sent == PingList(done)
  {
    latencies, sent := [], [];
    for i := 0 to iterations
      invariant latencies == Times(network)[..i] && sent == PingList(i)
      invariant forall j :: 0 <= j < i ==> network[j].Counts()
    {
      var ok, bytes := OpenAndPing(i, network[i]);
      if !ok {
        return Some(i), latencies, sent;
      }
      latencies, sent := latencies + [network[i].elapsed], sent + [bytes];
    }
    failed := None;
  }

  /** `Panicked` is the division by the number of pings when there were none. */
  datatype LatencyResult = Completed(summary: Summary) | PingFailed(i: nat) | Panicked

  /** Summarizes the times of all pings; the first ping that fails ends the test. */
  method RunLatencyTest(iterations: U32, network: seq<Exchange>) returns (r: LatencyResult, ghost sent: seq<seq<seq<Byte>>>)
    requires |network| == iterations && forall i :: 0 <= i < iterations ==> network[i].Valid()
    ensures r.Panicked? <==> iterations == 0
    ensures r.Completed? ==>
              && Times(network) != [] && Describes(r.summary, Times(network)) && sent == PingList(iterations)
              && forall i :: 0 <= i < iterations ==> network[i].Counts()
    ensures r.PingFailed? ==>
              && r.i < iterations && !network[r.i].Counts() && sent == PingList(r.i)
              && forall i :: 0 <= i < r.i ==> network[i].Counts()
  {
    var failed, latencies;
    failed, latencies, sent := PingAll(iterations, network);
    if failed.Some? {
      return PingFailed(failed.value), sent;
    }
    assert latencies == Times(network);
    var summary := Summarize(latencies);
    if summary.None? {
      return Panicked, sent;
    }
    SummaryDescribes(latencies, summary.value);
    r := Completed(summary.value);
  }

  /** Against nodes that answer, a ping counts exactly when its writes go through and its pong is in time and whole. */
  lemma ExchangeCountsIff(i: U32, x: Exchange)
    requires x.Valid() && Response(PingBytes(i)) == [Concat(x.fragments)]
    ensures x.Counts() <==> x.opens && x.budget >= 3 && x.inTime && |x.fragments| == 1
  {
    PingIsAnswered(i);
    PongAcceptedIffWhole(i, x.fragments);
  }
}
