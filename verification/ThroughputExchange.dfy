/**
  That the two sides of the throughput test fit together: what the client of the step system
  puts on a stream is what a node's stream handler answers with the bytes that the server of the
  step system sends.
*/
module ThroughputExchange {
  import opened Postcard
  import opened Protocol
  import opened Chunking
  import opened Streams
  import opened ThroughputStream
  import TT = ThroughputTest
  import Swarm

  /** The bytes of the client make a node's handler answer with the client's own blocks, and not panic. */
  lemma ClientIsAnswered(c: Config)
    ensures ReadFrame(ClientPlan(c)) == Got(Header(Throughput, c.size, Some(1), Some(c.chunk)), Payload(c.size, c.chunk))
    ensures Swarm.Response(ClientPlan(c)) == Fills(0xAB, Blocks(c.size, ClampChunk(c.chunk)))
    ensures !Swarm.HandlerPanics(ClientPlan(c))
  {
    FrameRoundTrip(c.Announced(), Payload(c.size, c.chunk));
  }

  /**
    In every state with the invariant, what the server has put or will put on the stream is
    exactly the handler's response to all that the client sends, and what it has taken or will
    take is exactly what follows the header.
  */
  lemma ServerIsTheHandler(c: Config, s: State)
    requires Inv(c, s) && s.server.Serving?
    ensures Received(s) + s.down.buf + Unanswered(s) == Concat(Swarm.Response(ClientPlan(c)))
    ensures ReadFrame(ClientPlan(c)) == Got(c.Announced(), s.server.drain.got + s.up.buf + Unsent(s))
  {
    ClientIsAnswered(c);
  }

  /** Stream by stream, a test for a configuration makes nodes answer in blocks of the configured size. */
  lemma AssignedTestIsAnswered(config: Option<ThroughputConfig>, t: TT.Test, i: nat)
    requires (t.streams, t.chunk) == ResolveConfig(config) && i < t.streams
    ensures var writes := Swarm.Response(ClientPlan(t.Stream(i)));
            && Concat(writes) == Repeat(0xAB, Shares(t.dataSize, t.streams)[i])
            && (forall k :: 0 <= k < |writes| - 1 ==> |writes[k]| == t.chunk)
            && (forall k :: 0 <= k < |writes| ==> 0 < |writes[k]| <= t.chunk)
  {
    ResolvedConfigIsSafe(config, t.dataSize);
    ClientIsAnswered(t.Stream(i));
    SentData(t.Stream(i).size, t.chunk);
  }

  /** In whatever run, a client that is done has received on each stream the response to what it sent. */
  lemma DoneClientHasResponses(t: TT.Test, run: seq<TT.World>, events: seq<TT.Event>, k: nat, i: nat)
    requires t.streams > 0 && TT.IsRun(t, run, events) && k <= |events| && i < t.streams
    requires i < |run[k].streams| && run[k].streams[i].client.Done?
    ensures run[k].streams[i].client.got == Concat(Swarm.Response(ClientPlan(t.Stream(i))))
  {
    TT.EveryStateConserves(t, run, events, k);
    var c, s := t.Stream(i), run[k].streams[i];
    assert Inv(c, s);
    ServerIsTheHandler(c, s);
    PayloadIsFill(c.size, c.chunk);
    assert s.down.buf == [] && Unanswered(s) == [];
    assert Received(s) + [] + [] == Received(s);
  }
}
