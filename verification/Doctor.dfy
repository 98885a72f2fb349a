/** The request sender and the request handler of a doctor session, on the two halves of a stream. */
module Doctor {
  import opened Postcard
  import opened Protocol
  import opened Chunking
  import opened Streams

  /** What answering a request to send puts on the stream. */
  function BlockBytes(bytes: U64, blockSize: nat): seq<Byte> {
    Concat(Fills(0, Blocks(bytes, Max(blockSize, 1))))
  }

  /** What a handler owes the peer for a request followed by `upload`. */
  function Reply(r: TestStreamRequest, upload: seq<Byte>): seq<Byte> {
    match r
    case Echo(_) => upload
    case Drain(_) => []
    case Send(bytes, blockSize) => BlockBytes(bytes, blockSize)
  }

  /** What a handler makes of the first bytes of a stream. */
  function ReadRequest(bytes: seq<Byte>): Decoded<TestStreamRequest> {
    if |bytes| < REQUEST_MAX_SIZE then Bad else TakeRequest(bytes[..REQUEST_MAX_SIZE])
  }

  /** A request that the send loop never gets done with, because its blocks are empty. */
  predicate Endless(d: Decoded<TestStreamRequest>) {
    d.Got? && d.value.Send? && d.value.blockSize == 0 && d.value.bytes > 0
  }

  lemma BlockBytesAreZeros(bytes: U64, blockSize: nat)
    ensures BlockBytes(bytes, blockSize) == Repeat(0, bytes)
  {
    BlocksCoverTotal(bytes, Max(blockSize, 1));
    ConcatFills(0, Blocks(bytes, Max(blockSize, 1)));
  }

  /** What a handler owes is what it receives, nothing, or as many zeros as asked for. */
  lemma Replies(r: TestStreamRequest, upload: seq<Byte>)
    ensures Reply(r, upload) == match r case Echo(_) => upload case Drain(_) => [] case Send(bytes, _) => Repeat(0, bytes)
  {
    if r.Send? { BlockBytesAreZeros(r.bytes, r.blockSize); }
  }

  lemma ConcatAppend(parts: seq<seq<Byte>>, more: seq<seq<Byte>>)
    ensures Concat(parts + more) == Concat(parts) + Concat(more)
  {
    ConcatSplit(parts + more, |parts|);
    assert (parts + more)[..|parts|] == parts && (parts + more)[|parts|..] == more;
  }

  lemma {:induction false} FewParts(parts: seq<seq<Byte>>)
    requires forall i :: 0 <= i < |parts| ==> parts[i] != []
    ensures |parts| <= |Concat(parts)|
  {
    if parts == [] {
    } else {
      FewParts(parts[1..]);
    }
  }

  /** A request followed by its upload is read as that request. */
  lemma SentRequestIsRead(r: TestStreamRequest, upload: seq<Byte>)
    ensures ReadRequest(PaddedRequest(r) + upload).Got?
    ensures ReadRequest(PaddedRequest(r) + upload).value == r
    ensures (PaddedRequest(r) + upload)[REQUEST_MAX_SIZE..] == upload
  {
    assert (PaddedRequest(r) + upload)[..REQUEST_MAX_SIZE] == PaddedRequest(r);
    PaddedRequestRoundTrip(r);
  }

  /** Overwrites the front of a buffer. */
  method CopyInto(buf: array<Byte>, bytes: seq<Byte>)
    requires |bytes| <= buf.Length
    modifies buf
    ensures buf[..] == bytes + old(buf[..])[|bytes|..]
  {
    for i := 0 to |bytes|
      invariant forall j :: 0 <= j < i ==> buf[j] == bytes[j]
      invariant forall j :: i <= j < buf.Length ==> buf[j] == old(buf[j])
    {
      buf[i] := bytes[i];
    }
  }

  /** Writes the request at the front of a zeroed buffer of fixed size, and sends the buffer. */
  method SendTestRequest(send: SendStream, r: TestStreamRequest) returns (ok: bool)
    modifies send
    ensures ok == (!old(send.finished) && old(send.budget) > 0)
    ensures send.writes == old(send.writes) + if ok then [PaddedRequest(r)] else []
    ensures send.finished == old(send.finished)
  {
    var buf := new Byte[REQUEST_MAX_SIZE](_ => 0);
    assert buf[..] == Repeat(0, REQUEST_MAX_SIZE);
    var encoded := EncodeRequest(r);
    assert |encoded| <= REQUEST_MAX_SIZE by { RequestRoundTrip(r, []); }
    CopyInto(buf, encoded);
    assert buf[..] == PaddedRequest(r) by {
      assert Repeat(0, REQUEST_MAX_SIZE)[|encoded|..] == Repeat(0, REQUEST_MAX_SIZE - |encoded|);
    }
    ok := send.WriteAll(buf[..]);
  }

  /** What is written after another read and write. */
  lemma WroteOn(before: seq<seq<Byte>>, start: seq<Byte>, done: seq<Byte>, bytes: seq<Byte>)
    requires Concat(before) == start + done
    ensures Concat(before + [bytes]) == start + (done + bytes)
  {
    ConcatAppend(before, [bytes]);
    assert Concat([bytes]) == bytes + [];
  }

  lemma BeginningOf(start: seq<Byte>, done: seq<Byte>, rest: seq<Byte>, all: seq<Byte>)
    requires all == done + rest
    ensures start <= start + done <= start + all
    ensures rest == [] ==> done == all
  {
    assert start + all == start + done + rest;
  }

  /** Copies a stream to its end through a buffer. */
  method CopyStream(recv: RecvStream, send: SendStream, bufferSize: nat) returns (copied: Option<nat>)
    requires recv.Valid() && bufferSize > 0
    modifies recv, send
    ensures old(Concat(send.writes)) <= Concat(send.writes) <= old(Concat(send.writes)) + old(recv.Unread())
    ensures copied.Some? ==> copied.value == |old(recv.Unread())|
    ensures copied.Some? ==> Concat(send.writes) == old(Concat(send.writes)) + old(recv.Unread())
    ensures !recv.broken && !old(send.finished) && old(send.budget) >= |old(recv.Unread())| ==> copied.Some?
    ensures send.finished == old(send.finished) && send.budget + |old(recv.Unread())| >= old(send.budget)
  {
    var amount := 0;
    ghost var start, all := Concat(send.writes), recv.Unread();
    ghost var done: seq<Byte> := [];
    while true
      invariant recv.Valid() && amount == |done|
      invariant all == done + recv.Unread()
      invariant Concat(send.writes) == start + done
      invariant send.finished == old(send.finished) && send.budget + |done| >= old(send.budget)
      decreases |recv.Unread()|
    {
      ghost var before := send.writes;
      BeginningOf(start, done, recv.Unread(), all);
      var r := recv.Read(bufferSize);
      if r.Failed? { return None; }
      if r.End? { return Some(amount); }
      var wrote := send.WriteAll(r.bytes);
      if !wrote {
        assert send.writes == before;
        return None;
      }
      WroteOn(before, start, done, r.bytes);
      amount := amount + |r.bytes|;
      done := done + r.bytes;
    }
  }

  /** Copies a stream to its end into nothing. */
  method CopyToSink(recv: RecvStream, bufferSize: nat) returns (copied: Option<nat>)
    requires recv.Valid() && bufferSize > 0
    modifies recv
    ensures copied.Some? == !recv.broken
    ensures copied.Some? ==> copied.value == |old(recv.Unread())|
  {
    var amount := 0;
    while true
      invariant recv.Valid() && amount + |recv.Unread()| == |old(recv.Unread())|
      decreases |recv.Unread()|
    {
      var r := recv.Read(bufferSize);
      if r.Failed? { return None; }
      if r.End? { return Some(amount); }
      amount := amount + |r.bytes|;
    }
  }

  /**
    Serves one stream. It answers with exactly what the request asks for, or with a beginning
    of it when the network fails, and finishes the stream only after a complete answer. An
    endless request is never answered.
  */
  method HandleTestRequest(send: SendStream, recv: RecvStream, bufferSize: nat) returns (e: Ending)
    requires recv.Valid() && bufferSize > 0 && !send.finished
    modifies send, recv
    ensures e.Diverges? <==> Endless(ReadRequest(old(recv.Unread())))
    ensures e.Diverges? ==> unchanged(send)
    ensures e.Returns? ==>
              var bytes := old(recv.Unread()); var d := ReadRequest(bytes);
              match d
              case Bad => !e.ok && send.writes == old(send.writes) && !send.finished
              case Got(r, _) =>
                var reply := Reply(r, bytes[REQUEST_MAX_SIZE..]);
                && old(Concat(send.writes)) <= Concat(send.writes) <= old(Concat(send.writes)) + reply
                && (e.ok ==> Concat(send.writes) == old(Concat(send.writes)) + reply)
                && e.ok == send.finished
                && ((!recv.broken || r.Send?) && old(send.budget) > |reply| ==> e.ok)
  {
    ghost var bytes := recv.Unread();
    var buf := recv.ReadExact(REQUEST_MAX_SIZE);
    if buf.None? { return Returns(false); }
    var request := TakeRequest(buf.value);
    if request.Bad? { return Returns(false); }
    match request.value {
      case Echo(_) =>
        var copied := CopyStream(recv, send, bufferSize);
        if copied.None? { return Returns(false); }
      case Drain(_) =>
        var drained := CopyToSink(recv, bufferSize);
        if drained.None? { return Returns(false); }
      case Send(total, blockSize) =>
        var sent := SendAllBlocks(send, total, blockSize);
        if sent != Returns(true) { return sent; }
    }
    var finished := send.Finish();
    e := Returns(finished);
  }

  /** The block sender, by the bytes it puts on the stream. */
  method SendAllBlocks(send: SendStream, total: U64, blockSize: nat) returns (e: Ending)
    modifies send
    ensures e.Diverges? <==> blockSize == 0 && total > 0
    ensures e.Diverges? ==> unchanged(send)
    ensures e.Returns? ==>
              && old(Concat(send.writes)) <= Concat(send.writes)
              && Concat(send.writes) <= old(Concat(send.writes)) + BlockBytes(total, blockSize)
              && (e.ok ==> Concat(send.writes) == old(Concat(send.writes)) + BlockBytes(total, blockSize))
              && (!old(send.finished) && old(send.budget) >= |BlockBytes(total, blockSize)| ==> e.ok)
              && send.finished == old(send.finished)
              && send.budget + |BlockBytes(total, blockSize)| >= old(send.budget)
  {
    ghost var blocks := Fills(0, Blocks(total, Max(blockSize, 1)));
    BlocksCoverTotal(total, Max(blockSize, 1));
    FewParts(blocks);
    ghost var sent := send.Writable(|blocks|);
    ConcatAppend(send.writes, blocks[..sent]);
    ConcatSplit(blocks, sent);
    assert blocks[..|blocks|] == blocks;
    e := SendBlocks(send, total, blockSize);
  }
}
