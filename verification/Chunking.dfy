/**
  How a transfer is cut up: into blocks on one stream, and into shares across the
  parallel streams of a throughput test.
*/
module Chunking {
  import opened Postcard
  import opened Protocol

  const MIN_CHUNK := 1024
  const MAX_CHUNK := 16 * 1024 * 1024
  const DEFAULT_PARALLEL_STREAMS := 4

  function Min(a: nat, b: nat): nat { if a <= b then a else b }

  function Max(a: nat, b: nat): nat { if a >= b then a else b }

  function Clamp(n: nat, lo: nat, hi: nat): nat
    requires lo <= hi
  {
    if n < lo then lo else if n > hi then hi else n
  }

  function ClampChunk(n: nat): nat { Clamp(n, MIN_CHUNK, MAX_CHUNK) }

  function Sum(s: seq<nat>): nat {
    if s == [] then 0 else s[0] + Sum(s[1..])
  }

  lemma {:induction false} SumConcat(a: seq<nat>, b: seq<nat>)
    ensures Sum(a + b) == Sum(a) + Sum(b)
  {
    if a == [] {
      assert a + b == b;
    } else {
      SumConcat(a[1..], b);
      assert (a + b)[1..] == a[1..] + b;
    }
  }

  /** The greatest element, or zero if there is none. */
  function MaxOf(s: seq<nat>): nat {
    if s == [] then 0 else Max(MaxOf(s[..|s| - 1]), s[|s| - 1])
  }

  lemma {:induction false} MaxOfBounds(s: seq<nat>)
    ensures forall i :: 0 <= i < |s| ==> s[i] <= MaxOf(s)
    ensures s != [] ==> MaxOf(s) in s
  {
    if s == [] {
    } else {
      MaxOfBounds(s[..|s| - 1]);
    }
  }

  function Copies(n: nat, k: nat): (s: seq<nat>)
    ensures |s| == k && forall i :: 0 <= i < k ==> s[i] == n
  {
    seq(k, _ => n)
  }

  lemma {:induction false} SumCopies(n: nat, k: nat)
    ensures Sum(Copies(n, k)) == n * k
  {
    if k == 0 {
    } else {
      SumCopies(n, k - 1);
      assert Copies(n, k)[1..] == Copies(n, k - 1);
      assert n * k == n + n * (k - 1);
    }
  }

  // Blocks

  /** The block lengths written by the doctor's sender, which subtracts what it has sent. */
  function Blocks(total: nat, block: nat): seq<nat>
    requires block > 0
  {
    if total == 0 then [] else [Min(total, block)] + Blocks(total - Min(total, block), block)
  }

  /** The block lengths written by the swarm's sender: full chunks, and a remainder if there is one. */
  function Chunks(total: nat, block: nat): seq<nat>
    requires block > 0
  {
    Copies(block, total / block) + if total % block != 0 then [total % block] else []
  }

  lemma ChunksStep(total: nat, block: nat)
    requires 0 < block <= total
    ensures Chunks(total, block) == [block] + Chunks(total - block, block)
  {
    var q, r := total / block, total % block;
    assert total - block == block * (q - 1) + r by { assert block * (q - 1) == block * q - block; }
    DivideUnique(total - block, block, q - 1, r);
    assert Copies(block, q) == [block] + Copies(block, q - 1);
  }

  lemma {:induction false} ChunkersAgree(total: nat, block: nat)
    requires block > 0
    ensures Blocks(total, block) == Chunks(total, block)
  {
    if total < block {
      DivideUnique(total, block, 0, total);
      if total > 0 { assert Blocks(total - total, block) == []; }
    } else {
      ChunkersAgree(total - block, block);
      ChunksStep(total, block);
    }
  }

  lemma DivideUnique(n: nat, d: nat, q: int, r: nat)
    requires r < d && n == d * q + r
    ensures n / d == q && n % d == r
  {
    var e := n / d - q;
    assert d * e == d * (n / d) - d * q == r - n % d;
    MulGrows(d, e);
  }

  lemma MulGrows(d: nat, e: int)
    ensures e >= 1 ==> d * e >= d
    ensures e <= -1 ==> d * e + d <= 0
  {
    assert d * e == d + d * (e - 1);
    assert d * e + d == d * (e + 1);
  }

  /** Every block is full except possibly the last; none is empty; together they are the total. */
  lemma {:induction false} BlocksCoverTotal(total: nat, block: nat)
    requires block > 0
    ensures var blocks := Blocks(total, block);
            && Sum(blocks) == total
            && (forall i :: 0 <= i < |blocks| ==> 0 < blocks[i] <= block)
            && (forall i :: 0 <= i < |blocks| - 1 ==> blocks[i] == block)
  {
    if total == 0 {
    } else {
      var n := Min(total, block);
      BlocksCoverTotal(total - n, block);
      var rest := Blocks(total - n, block);
      assert Blocks(total, block)[1..] == rest;
    }
  }

  lemma RoundUp(q: nat, r: nat, d: nat, n: nat)
    requires r < d && n == d * q + r
    ensures (n + d - 1) / d == q + if r == 0 then 0 else 1
  {
    if r == 0 {
      DivideUnique(n + d - 1, d, q, d - 1);
    } else {
      assert d * (q + 1) == d * q + d;
      DivideUnique(n + d - 1, d, q + 1, r - 1);
    }
  }

  /** There are as many blocks as the total divided by the block size, rounded up. */
  lemma BlockCount(total: nat, block: nat)
    requires block > 0
    ensures |Blocks(total, block)| == (total + block - 1) / block
  {
    ChunkersAgree(total, block);
    RoundUp(total / block, total % block, block, total);
  }

  /** What is left to send after `k` rounds of the doctor's send loop, for any block size at all. */
  function RemainingAfter(total: nat, block: nat, k: nat): nat {
    if k == 0 then total
    else
      var remaining := RemainingAfter(total, block, k - 1);
      remaining - Min(remaining, block)
  }

  /**
    The loop comes to an end exactly when the block size is positive or there is nothing
    to send. A peer may ask for a block size of zero, and then it never ends.
  */
  lemma {:induction false} SendLoopEndsIff(total: nat, block: nat)
    ensures (exists k :: RemainingAfter(total, block, k) == 0) <==> block > 0 || total == 0
  {
    if block == 0 {
      forall k ensures RemainingAfter(total, 0, k) == total { ZeroBlockSendsNothing(total, k); }
      assert RemainingAfter(total, block, 0) == total;
    } else {
      RemainingShrinks(total, block, total);
      assert RemainingAfter(total, block, total) == 0;
    }
  }

  lemma {:induction false} ZeroBlockSendsNothing(total: nat, k: nat)
    ensures RemainingAfter(total, 0, k) == total
  {
    if k == 0 {
    } else {
      ZeroBlockSendsNothing(total, k - 1);
    }
  }

  lemma {:induction false} RemainingShrinks(total: nat, block: nat, k: nat)
    requires block > 0
    ensures RemainingAfter(total, block, k) <= Max(total, k) - k
  {
    if k == 0 {
    } else {
      RemainingShrinks(total, block, k - 1);
    }
  }

  // Shares

  /** The bytes of each stream: equal shares, the last one taking the remainder. */
  function Shares(dataSize: nat, streams: nat): (s: seq<nat>)
    requires streams > 0
    ensures |s| == streams
  {
    Copies(dataSize / streams, streams - 1) + [dataSize / streams + dataSize % streams]
  }

  lemma QuotientAndRest(n: nat, d: nat, q: nat, r: nat)
    requires d > 0 && n == d * q + r
    ensures q * (d - 1) + (q + r) == n && q <= n
  {
    assert q * (d - 1) == d * q - q;
    MulGrows(q, d);
  }

  /** The shares are a partition: the last one exceeds the equal others by less than the stream count. */
  lemma SharesPartition(dataSize: nat, streams: nat)
    requires streams > 0
    ensures var shares := Shares(dataSize, streams);
            && Sum(shares) == dataSize
            && (forall i :: 0 <= i < streams - 1 ==> shares[i] == shares[0])
            && (forall i :: 0 <= i < streams - 1 ==> 0 <= shares[streams - 1] - shares[i] < streams)
            && (forall i :: 0 <= i < streams ==> shares[i] <= dataSize)
  {
    var q, r := dataSize / streams, dataSize % streams;
    QuotientAndRest(dataSize, streams, q, r);
    SumConcat(Copies(q, streams - 1), [q + r]);
    SumCopies(q, streams - 1);
    assert Sum([q + r]) == q + r;
  }

  // Configuration

  datatype ThroughputConfig = ThroughputConfig(parallelStreams: Option<U32>, chunkSizeKb: Option<U32>)

  function GetOr<T>(o: Option<T>, default: T): T {
    match o case Some(v) => v case None => default
  }

  /** The stream count and chunk size of an assignment, whose configuration may be absent. */
  function ResolveConfig(config: Option<ThroughputConfig>): (r: (nat, nat)) {
    var streams := match config case Some(c) => c.parallelStreams case None => None;
    var kb := match config case Some(c) => c.chunkSizeKb case None => None;
    var chunk := match kb case Some(n) => n * 1024 case None => DEFAULT_CHUNK_SIZE;
    (Clamp(GetOr(streams, DEFAULT_PARALLEL_STREAMS), 1, 16), ClampChunk(chunk))
  }

  /** The chunk size a server uses for a stream announced by `h`. */
  function ServerChunk(h: Header): nat {
    ClampChunk(GetOr(h.chunkSize, DEFAULT_CHUNK_SIZE))
  }

  /**
    Whatever an assignment says, the stream count can be divided by and counted down
    from, and the client and the server cut a stream into the same blocks.
  */
  lemma ResolvedConfigIsSafe(config: Option<ThroughputConfig>, size: U64)
    ensures var (streams, chunk) := ResolveConfig(config);
            && 1 <= streams <= 16
            && MIN_CHUNK <= chunk <= MAX_CHUNK
            && Sum(Shares(size, streams)) == size
            && (forall share: U64 :: ServerChunk(Header(Throughput, share, Some(1), Some(chunk))) == ClampChunk(chunk) == chunk)
  {
    var (streams, chunk) := ResolveConfig(config);
    SharesPartition(size, streams);
  }

  /** Each setting on its own: what is asked for is used as it is exactly when it is in the enforced range, and otherwise its nearest end. */
  lemma RequestedConfigKeptIff(streams: Option<U32>, kb: Option<U32>)
    ensures var (n, chunk) := ResolveConfig(Some(ThroughputConfig(streams, kb)));
            && (streams.Some? ==> (n == streams.value <==> 1 <= streams.value <= 16))
            && (kb.Some? ==> (chunk == kb.value * 1024 <==> 1 <= kb.value <= 16 * 1024))
            && (streams.Some? && streams.value == 0 ==> n == 1)
            && (streams.Some? && streams.value > 16 ==> n == 16)
            && (kb.Some? && kb.value == 0 ==> chunk == 1024)
            && (kb.Some? && kb.value > 16 * 1024 ==> chunk == 16 * 1024 * 1024)
            && (streams.None? ==> n == 4)
            && (kb.None? ==> chunk == 1024 * 1024)
    ensures ResolveConfig(None) == (4, 1024 * 1024)
  {
  }

  method SplitAcrossStreams(dataSize: U64, streams: nat) returns (sizes: seq<nat>)
    requires streams > 0
    ensures sizes == Shares(dataSize, streams)
  {
    var perStream := dataSize / streams;
    var lastExtra := dataSize % streams;
    sizes := [];
    for idx := 0 to streams
      invariant |sizes| == idx
      invariant forall i :: 0 <= i < idx ==> sizes[i] == Shares(dataSize, streams)[i]
    {
      var size := if idx == streams - 1 then perStream + lastExtra else perStream;
      sizes := sizes + [size];
    }
  }
}
