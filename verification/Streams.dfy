/**
  The two halves of a bidirectional stream as the code sees them, and the loops that
  move bulk data through them. How the network cuts the bytes into fragments, and after
  how many calls it reports an error, are state of the stream objects that no caller chooses.
*/
module Streams {
  import opened Postcard
  import opened Protocol
  import opened Chunking

  const FILL: Byte := 0xAB
  const BATCH := 32

  function Concat(parts: seq<seq<Byte>>): seq<Byte> {
    if parts == [] then [] else parts[0] + Concat(parts[1..])
  }

  lemma {:induction false} ConcatSplit(parts: seq<seq<Byte>>, k: nat)
    requires k <= |parts|
    ensures Concat(parts) == Concat(parts[..k]) + Concat(parts[k..])
  {
    if k == 0 {
      assert parts[0..] == parts;
    } else {
      ConcatSplit(parts[1..], k - 1);
      assert parts[..k][1..] == parts[1..][..k - 1];
      assert parts[k..] == parts[1..][k - 1..];
    }
  }

  lemma ConcatTwo(a: seq<Byte>, b: seq<Byte>)
    ensures Concat([a, b]) == a + b
  {
    assert [a, b][1..] == [b];
    assert Concat([b]) == b + [];
  }

  /** What arrives first is a prefix of the whole, and all of it only if nothing else arrives. */
  lemma FirstPart(parts: seq<seq<Byte>>)
    requires parts != [] && forall k :: 0 <= k < |parts| ==> parts[k] != []
    ensures |parts[0]| <= |Concat(parts)| && parts[0] == Concat(parts)[..|parts[0]|]
    ensures |parts[0]| == |Concat(parts)| <==> |parts| == 1
  {
    if |parts| > 1 {
      assert Concat(parts[1..]) == parts[1..][0] + Concat(parts[1..][1..]);
    }
  }

  /** One write per block length, every byte the same. */
  function Fills(b: Byte, lens: seq<nat>): (s: seq<seq<Byte>>)
    ensures |s| == |lens| && forall i :: 0 <= i < |s| ==> s[i] == Repeat(b, lens[i])
  {
    seq(|lens|, i requires 0 <= i < |lens| => Repeat(b, lens[i]))
  }

  lemma {:induction false} ConcatFills(b: Byte, lens: seq<nat>)
    ensures Concat(Fills(b, lens)) == Repeat(b, Sum(lens))
  {
    if lens == [] {
    } else {
      ConcatFills(b, lens[1..]);
      assert Fills(b, lens)[1..] == Fills(b, lens[1..]);
    }
  }

  /** One direction of a stream in a step system: bytes in flight, and whether the sender has finished. */
  datatype Pipe = Pipe(buf: seq<Byte>, finished: bool)

  lemma Shift(a: seq<Byte>, b: seq<Byte>, d: seq<Byte>, n: nat)
    requires n <= |b|
    ensures (a + b[..n]) + b[n..] == a + b
    ensures (a + b[..n]) + b[n..] + d == a + b + d
  {
  }

  lemma Push(a: seq<Byte>, b: seq<Byte>, d: seq<Byte>, n: nat)
    requires n <= |d|
    ensures a + (b + d[..n]) + d[n..] == a + b + d
  {
  }

  datatype ReadResult = Data(bytes: seq<Byte>) | End | Failed
  datatype BatchResult = Batch(count: nat) | NoMore | BatchFailed

  class RecvStream {
    /** What has yet to be read, cut as the network delivers it. */
    var fragments: seq<seq<Byte>>
    /** Whether an error, and not the end of the stream, follows the last fragment. */
    const broken: bool

    constructor (fragments: seq<seq<Byte>>, broken: bool)
      ensures this.fragments == fragments && this.broken == broken
    {
      this.fragments := fragments;
      this.broken := broken;
    }

    ghost predicate Valid()
      reads this
    {
      forall i :: 0 <= i < |fragments| ==> fragments[i] != []
    }

    ghost function Unread(): seq<Byte>
      reads this
    {
      Concat(fragments)
    }

    /** Reads at most `max` bytes, and never past a fragment. */
    method Read(max: nat) returns (r: ReadResult)
      requires Valid() && max > 0
      modifies this
      ensures Valid()
      ensures old(fragments) == [] ==> fragments == [] && r == if broken then Failed else End
      ensures old(fragments) != [] ==> r == Data(old(fragments)[0][..Min(max, |old(fragments)[0]|)])
      ensures r.Data? ==> r.bytes != [] && old(Unread()) == r.bytes + Unread()
      ensures r.Data? && |old(fragments)[0]| <= max ==> fragments == old(fragments)[1..]
    {
      if fragments == [] {
        return if broken then Failed else End;
      }
      var first := fragments[0];
      if |first| <= max {
        fragments := fragments[1..];
        return Data(first);
      }
      fragments := [first[max..]] + fragments[1..];
      assert first == first[..max] + first[max..];
      return Data(first[..max]);
    }

    /** Reads exactly `n` bytes, however they arrive, or fails if there are fewer. */
    method ReadExact(n: nat) returns (o: Option<seq<Byte>>)
      requires Valid()
      modifies this
      ensures Valid()
      ensures |old(Unread())| >= n ==> o == Some(old(Unread())[..n]) && Unread() == old(Unread())[n..]
      ensures |old(Unread())| < n ==> o == None && Unread() == []
    {
      var buf: seq<Byte> := [];
      while |buf| < n
        invariant Valid() && |buf| <= n
        invariant old(Unread()) == buf + Unread()
        decreases n - |buf|
      {
        var r := Read(n - |buf|);
        if !r.Data? {
          return None;
        }
        buf := buf + r.bytes;
      }
      return Some(buf);
    }

    /** Moves some of the waiting fragments into the buffers; how many is up to the network. */
    method ReadManyChunks(bufs: array<seq<Byte>>) returns (r: BatchResult)
      requires Valid() && bufs.Length > 0
      modifies this, bufs
      ensures Valid()
      ensures old(fragments) == [] ==> fragments == [] && r == if broken then BatchFailed else NoMore
      ensures old(fragments) != [] ==>
                && r.Batch? && 1 <= r.count <= bufs.Length && r.count <= |old(fragments)|
                && bufs[..r.count] == old(fragments)[..r.count]
                && fragments == old(fragments)[r.count..]
    {
      if fragments == [] {
        return if broken then BatchFailed else NoMore;
      }
      var n: nat :| 1 <= n <= bufs.Length && n <= |fragments|;
      for i := 0 to n
        invariant fragments == old(fragments)
        invariant bufs[..i] == old(fragments)[..i]
      {
        bufs[i] := fragments[i];
      }
      fragments := fragments[n..];
      return Batch(n);
    }
  }

  class SendStream {
    /** The calls to write that succeeded, in order. */
    var writes: seq<seq<Byte>>
    var finished: bool
    /** How many more calls succeed before the network fails. */
    var budget: nat

    constructor (budget: nat)
      ensures writes == [] && !finished && this.budget == budget
    {
      this.writes := [];
      this.finished := false;
      this.budget := budget;
    }

    /** How many of `n` writes will succeed. */
    ghost function Writable(n: nat): nat
      reads this
    {
      if finished then 0 else Min(budget, n)
    }

    method WriteAll(bytes: seq<Byte>) returns (ok: bool)
      modifies this
      ensures ok == (!old(finished) && old(budget) > 0)
      ensures writes == old(writes) + if ok then [bytes] else []
      ensures finished == old(finished)
      ensures budget == if ok then old(budget) - 1 else old(budget)
    {
      ok := !finished && budget > 0;
      if ok {
        writes := writes + [bytes];
        budget := budget - 1;
      }
    }

    method Finish() returns (ok: bool)
      modifies this
      ensures ok == (!old(finished) && old(budget) > 0)
      ensures writes == old(writes) && finished == (old(finished) || ok)
      ensures budget == if ok then old(budget) - 1 else old(budget)
    {
      ok := !finished && budget > 0;
      if ok {
        finished := true;
        budget := budget - 1;
      }
    }

    /** Waits for the peer to have taken everything. */
    method Stopped() returns (ok: bool)
      modifies this
      ensures ok == (old(budget) > 0)
      ensures writes == old(writes) && finished == old(finished)
      ensures budget == if ok then old(budget) - 1 else old(budget)
    {
      ok := budget > 0;
      if ok {
        budget := budget - 1;
      }
    }
  }

  function TotalLength(parts: seq<seq<Byte>>): nat {
    |Concat(parts)|
  }

  lemma {:induction false} TotalLengthSnoc(parts: seq<seq<Byte>>, n: nat)
    requires n < |parts|
    ensures TotalLength(parts[..n + 1]) == TotalLength(parts[..n]) + |parts[n]|
  {
    ConcatSplit(parts[..n + 1], n);
    assert parts[..n + 1][..n] == parts[..n];
    assert parts[..n + 1][n..] == [parts[n]];
    assert Concat([parts[n]]) == parts[n];
  }

  method SumLengths(bufs: array<seq<Byte>>, n: nat) returns (total: nat)
    requires n <= bufs.Length
    ensures total == TotalLength(bufs[..n])
  {
    total := 0;
    for i := 0 to n
      invariant total == TotalLength(bufs[..i])
    {
      TotalLengthSnoc(bufs[..n], i);
      assert bufs[..n][..i + 1] == bufs[..i + 1] && bufs[..n][..i] == bufs[..i];
      total := total + |bufs[i]|;
    }
  }

  /**
    Reads a stream to its end. In either mode the byte count is that of everything sent,
    however it was cut and batched; only the chunk count depends on the cutting.
  */
  method DrainStream(recv: RecvStream, readUnordered: bool) returns (r: Option<(nat, nat)>)
    requires recv.Valid()
    modifies recv
    ensures r.Some? == !recv.broken
    ensures recv.Valid() && recv.fragments == []
    ensures r.Some? ==> r.value.0 == |old(recv.Unread())|
    ensures r.Some? && readUnordered ==> r.value.1 == |old(recv.fragments)|
    ensures r.Some? && !readUnordered ==> r.value.1 <= |old(recv.fragments)| <= 32 * r.value.1
  {
    var read := 0;
    var numChunks := 0;
    ghost var all := recv.fragments;
    if readUnordered {
      while true
        invariant recv.Valid() && numChunks <= |all| && recv.fragments == all[numChunks..]
        invariant read == TotalLength(all[..numChunks])
        decreases |recv.fragments|
      {
        var max := if recv.fragments == [] then 1 else |recv.fragments[0]|;
        var chunk := recv.Read(max);
        if chunk.Failed? {
          return None;
        }
        if chunk.End? {
          break;
        }
        TotalLengthSnoc(all, numChunks);
        read := read + |chunk.bytes|;
        numChunks := numChunks + 1;
      }
      assert all[..numChunks] == all;
    } else {
      var bufs := new seq<Byte>[BATCH](_ => []);
      ghost var taken: nat := 0;
      while true
        invariant recv.Valid() && taken <= |all| && recv.fragments == all[taken..]
        invariant read == TotalLength(all[..taken])
        invariant numChunks <= taken <= BATCH * numChunks
        decreases |recv.fragments|
      {
        var batch := recv.ReadManyChunks(bufs);
        if batch.BatchFailed? {
          return None;
        }
        if batch.NoMore? {
          break;
        }
        var n := SumLengths(bufs, batch.count);
        ConcatSplit(all[..taken + batch.count], taken);
        assert all[..taken + batch.count][..taken] == all[..taken];
        assert all[..taken + batch.count][taken..] == all[taken..][..batch.count];
        read := read + n;
        numChunks := numChunks + 1;
        taken := taken + batch.count;
      }
      assert all[..taken] == all;
    }
    return Some((read, numChunks));
  }

  /** Sends `streamSize` bytes in clamped chunks, finishes the stream and waits for the peer. */
  method SendDataOnStream(send: SendStream, streamSize: nat, chunkSize: nat) returns (ok: bool)
    modifies send
    ensures var blocks := Fills(FILL, Blocks(streamSize, ClampChunk(chunkSize)));
            && send.writes == old(send.writes) + blocks[..old(send.Writable(|blocks|))]
            && (ok <==> !old(send.finished) && old(send.budget) >= |blocks| + 2)
            && send.finished == (old(send.finished) || old(send.budget) > |blocks|)
  {
    var chunk := ClampChunk(chunkSize);
    var fullChunks := streamSize / chunk;
    var remaining := streamSize % chunk;
    ghost var blocks := Fills(FILL, Blocks(streamSize, chunk));
    ChunkersAgree(streamSize, chunk);
    var data := Repeat(FILL, chunk);
    for i := 0 to fullChunks
      invariant send.writes == old(send.writes) + blocks[..i]
      invariant old(send.budget) == send.budget + i && send.finished == old(send.finished)
      invariant i > 0 ==> !send.finished
    {
      var wrote := send.WriteAll(data);
      if !wrote {
        return false;
      }
    }
    if remaining != 0 {
      assert Repeat(FILL, remaining) == data[..remaining];
      var wrote := send.WriteAll(data[..remaining]);
      if !wrote {
        return false;
      }
    }
    assert blocks[..|blocks|] == blocks;
    var finished := send.Finish();
    if !finished {
      return false;
    }
    ok := send.Stopped();
  }

  /**
    What the source puts on a stream: the byte 0xAB as often as asked for, in writes of the
    chunk size, raised to 1 KiB or lowered to 16 MiB, of which only the last may be shorter.
  */
  lemma SentData(streamSize: nat, chunkSize: nat)
    ensures var writes := Fills(FILL, Blocks(streamSize, ClampChunk(chunkSize)));
            var chunk := if chunkSize < 1024 then 1024 else if chunkSize > 16_777_216 then 16_777_216 else chunkSize;
            && Concat(writes) == Repeat(0xAB, streamSize)
            && (forall i :: 0 <= i < |writes| ==> 0 < |writes[i]| <= chunk)
            && (forall i :: 0 <= i < |writes| - 1 ==> |writes[i]| == chunk)
  {
    BlocksCoverTotal(streamSize, ClampChunk(chunkSize));
    ConcatFills(FILL, Blocks(streamSize, ClampChunk(chunkSize)));
  }

  /**
    Drains and sends in two tasks, and joins both. The tasks touch different halves of the
    stream, so it makes no difference which of them is done first.
  */
  method HandleBidirectionalTransfer(send: SendStream, recv: RecvStream, dataSize: nat, chunkSize: nat, drainFirst: bool)
    returns (r: Option<(nat, nat)>)
    requires recv.Valid()
    modifies send, recv
    ensures var blocks := Fills(FILL, Blocks(dataSize, ClampChunk(chunkSize)));
            && send.writes == old(send.writes) + blocks[..old(send.Writable(|blocks|))]
            && send.finished == (old(send.finished) || old(send.budget) > |blocks|)
            && (r.Some? <==> !recv.broken && !old(send.finished) && old(send.budget) >= |blocks| + 2)
    ensures recv.fragments == []
    ensures r.Some? ==> r.value == (|old(recv.Unread())|, dataSize)
  {
    var drained, sent := None, false;
    if drainFirst {
      drained := DrainStream(recv, false);
      sent := SendDataOnStream(send, dataSize, chunkSize);
    } else {
      sent := SendDataOnStream(send, dataSize, chunkSize);
      drained := DrainStream(recv, false);
    }
    if drained.None? || !sent {
      return None;
    }
    return Some((drained.value.0, dataSize));
  }

  lemma NextBlock(lens: seq<nat>, done: nat, remaining: nat, block: nat)
    requires done <= |lens| && block > 0 && remaining > 0
    requires lens[done..] == Blocks(remaining, block)
    ensures done < |lens| && lens[done] == Min(remaining, block)
    ensures lens[done + 1..] == Blocks(remaining - Min(remaining, block), block)
  {
    assert lens[done] == lens[done..][0];
    assert lens[done + 1..] == lens[done..][1..];
  }

  /** How a loop over a stream ends, if it does. */
  datatype Ending = Returns(ok: bool) | Diverges

  /**
    Sends `totalBytes` zero bytes, subtracting each block from what remains. A round that takes
    nothing from what remains, and so writes nothing either, is repeated for ever.
  */
  method SendBlocks(send: SendStream, totalBytes: nat, blockSize: nat) returns (r: Ending)
    modifies send
    ensures r.Diverges? <==> blockSize == 0 && totalBytes > 0
    ensures r.Diverges? ==> unchanged(send)
    ensures r.Returns? ==>
              var blocks := Fills(0, Blocks(totalBytes, Max(blockSize, 1)));
              && send.writes == old(send.writes) + blocks[..old(send.Writable(|blocks|))]
              && (r.ok <==> old(send.Writable(|blocks|)) == |blocks|)
              && send.finished == old(send.finished)
              && send.budget + |blocks| >= old(send.budget)
  {
    var buf := Repeat(0, blockSize);
    var remaining := totalBytes;
    ghost var lens := Blocks(totalBytes, Max(blockSize, 1));
    ghost var blocks := Fills(0, lens);
    ghost var done: nat := 0;
    while remaining > 0
      invariant done <= |lens| && lens[done..] == Blocks(remaining, Max(blockSize, 1))
      invariant blockSize == 0 ==> remaining == totalBytes && unchanged(send)
      invariant send.writes == old(send.writes) + blocks[..done]
      invariant send.finished == old(send.finished) && old(send.budget) == send.budget + done
      invariant done > 0 ==> !send.finished
    {
      var n := Min(remaining, blockSize);
      if n == 0 {
        return Diverges;
      }
      NextBlock(lens, done, remaining, blockSize);
      assert buf[..n] == Repeat(0, n) == blocks[done];
      var wrote := send.WriteAll(buf[..n]);
      if !wrote {
        return Returns(false);
      }
      remaining := remaining - n;
      done := done + 1;
    }
    r := Returns(true);
  }
}
