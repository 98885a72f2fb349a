/**
  One stream of the swarm throughput test as a step system. The client uploads, finishes,
  waits until the server has taken everything, and only then downloads. The server reads
  the header and then drains and sends in two concurrent tasks. Each direction is an ordered
  byte channel with a window (section 4.1 of RFC 9000); reads and writes may move any positive
  number of bytes. Waiting for `stopped` may end as soon as the stream is finished, because a
  transport may acknowledge what its application has not read, but it is only sure to end
  once the peer has read everything: safety is proved for the first reading and progress for
  the second, so both hold for every transport in between.
*/
module ThroughputStream {
  import opened Postcard
  import opened Protocol
  import opened Chunking
  import opened Streams

  /** `upWindow` and `downWindow` are the per-stream flow control windows. */
  datatype Config = Config(size: U64, chunk: U64, upWindow: nat, downWindow: nat) {
    ghost predicate Valid() { upWindow > 0 && downWindow > 0 }

    function Announced(): Header { Header(Throughput, size, Some(1), Some(chunk)) }
  }

  /** The bytes a side puts on the stream as data. */
  function Payload(size: U64, chunk: nat): seq<Byte> {
    Concat(Fills(FILL, Blocks(size, ClampChunk(chunk))))
  }

  function ClientPlan(c: Config): seq<Byte> {
    Frame(c.Announced()) + Payload(c.size, c.chunk)
  }

  datatype Client =
    | Uploading(outbox: seq<Byte>)
    | AwaitingStopped
    | Downloading(got: seq<Byte>)
    | Done(got: seq<Byte>)

  datatype DrainTask = Draining(got: seq<Byte>) | Drained(got: seq<Byte>)
  datatype SendTask = Sending(outbox: seq<Byte>) | AwaitingPeer | Sent
  datatype Server =
    | ReadingHeader(acc: seq<Byte>)
    | Serving(drain: DrainTask, send: SendTask)
    | HeaderFailed

  datatype State = State(client: Client, server: Server, up: Pipe, down: Pipe)

  datatype Action =
    | ClientWrite(n: nat) | ClientFinish | ClientStopped | ClientRead(n: nat) | ClientEnd
    | HeaderRead(n: nat) | HeaderParse
    | DrainRead(n: nat) | DrainEnd
    | SendWrite(n: nat) | SendFinish | SendStopped

  function Init(c: Config): State {
    State(Uploading(ClientPlan(c)), ReadingHeader([]), Pipe([], false), Pipe([], false))
  }

  /** `upCredit` and `downCredit` are what the connection as a whole still lets through. */
  ghost predicate Enabled(c: Config, s: State, a: Action, upCredit: nat, downCredit: nat) {
    match a
    case ClientWrite(n) =>
      s.client.Uploading? && 0 < n <= |s.client.outbox| && n <= upCredit && |s.up.buf| + n <= c.upWindow
    case ClientFinish => s.client.Uploading? && s.client.outbox == []
    case ClientStopped => s.client.AwaitingStopped?
    case ClientRead(n) => s.client.Downloading? && 0 < n <= |s.down.buf|
    case ClientEnd => s.client.Downloading? && s.down == Pipe([], true)
    case HeaderRead(n) =>
      s.server.ReadingHeader? && 0 < n <= |s.up.buf| && |s.server.acc| + n <= FrameLength(s.server.acc)
    case HeaderParse =>
      s.server.ReadingHeader? && |s.server.acc| >= 2 && |s.server.acc| == FrameLength(s.server.acc)
    case DrainRead(n) => s.server.Serving? && s.server.drain.Draining? && 0 < n <= |s.up.buf|
    case DrainEnd => s.server.Serving? && s.server.drain.Draining? && s.up == Pipe([], true)
    case SendWrite(n) =>
      && s.server.Serving? && s.server.send.Sending? && 0 < n <= |s.server.send.outbox|
      && n <= downCredit && |s.down.buf| + n <= c.downWindow
    case SendFinish => s.server.Serving? && s.server.send == Sending([])
    case SendStopped => s.server.Serving? && s.server.send.AwaitingPeer?
  }

  /** The enabled steps that every transport must allow in time. */
  ghost predicate Guaranteed(s: State, a: Action) {
    && (a.ClientStopped? ==> s.server.Serving? && s.server.drain.Drained?)
    && (a.SendStopped? ==> s.client.Done?)
  }

  ghost function Step(c: Config, s: State, a: Action, upCredit: nat, downCredit: nat): State
    requires Enabled(c, s, a, upCredit, downCredit)
  {
    match a
    case ClientWrite(n) =>
      s.(client := Uploading(s.client.outbox[n..]), up := s.up.(buf := s.up.buf + s.client.outbox[..n]))
    case ClientFinish => s.(client := AwaitingStopped, up := s.up.(finished := true))
    case ClientStopped => s.(client := Downloading([]))
    case ClientRead(n) =>
      s.(client := Downloading(s.client.got + s.down.buf[..n]), down := s.down.(buf := s.down.buf[n..]))
    case ClientEnd => s.(client := Done(s.client.got))
    case HeaderRead(n) =>
      s.(server := ReadingHeader(s.server.acc + s.up.buf[..n]), up := s.up.(buf := s.up.buf[n..]))
    case HeaderParse =>
      (match TakeHeader(s.server.acc[2..])
       case Bad => s.(server := HeaderFailed)
       case Got(h, _) =>
         if h.testType.Latency? then s.(server := HeaderFailed)
         else s.(server := Serving(Draining([]), Sending(Payload(h.dataSize, GetOr(h.chunkSize, DEFAULT_CHUNK_SIZE))))))
    case DrainRead(n) =>
      s.(server := s.server.(drain := Draining(s.server.drain.got + s.up.buf[..n])),
         up := s.up.(buf := s.up.buf[n..]))
    case DrainEnd => s.(server := s.server.(drain := Drained(s.server.drain.got)))
    case SendWrite(n) =>
      s.(server := s.server.(send := Sending(s.server.send.outbox[n..])),
         down := s.down.(buf := s.down.buf + s.server.send.outbox[..n]))
    case SendFinish => s.(server := s.server.(send := AwaitingPeer), down := s.down.(finished := true))
    case SendStopped => s.(server := s.server.(send := Sent))
  }

  /** Both peers have returned success. */
  ghost predicate Final(s: State) {
    s.client.Done? && s.server.Serving? && s.server.drain.Drained? && s.server.send.Sent?
  }

  function Unsent(s: State): seq<Byte> { if s.client.Uploading? then s.client.outbox else [] }

  function Received(s: State): seq<Byte> {
    match s.client
    case Downloading(got) => got
    case Done(got) => got
    case _ => []
  }

  function Unanswered(s: State): seq<Byte> {
    if s.server.Serving? && s.server.send.Sending? then s.server.send.outbox else []
  }

  /** In both directions nothing is lost, invented or reordered. */
  ghost predicate Conserved(c: Config, s: State) {
    match s.server
    case ReadingHeader(acc) =>
      acc + s.up.buf + Unsent(s) == ClientPlan(c) && Received(s) == [] && s.down.buf == []
    case Serving(drain, send) =>
      && drain.got + s.up.buf + Unsent(s) == Payload(c.size, c.chunk)
      && Received(s) + s.down.buf + Unanswered(s) == Payload(c.size, c.chunk)
    case HeaderFailed => false
  }

  ghost predicate Phases(c: Config, s: State) {
    && |s.up.buf| <= c.upWindow && |s.down.buf| <= c.downWindow
    && s.up.finished == !s.client.Uploading?
    && (s.server.ReadingHeader? ==>
          !s.down.finished && !s.client.Done? && |s.server.acc| <= |Frame(c.Announced())|)
    && (s.server.Serving? ==>
          && s.down.finished == !s.server.send.Sending?
          && (s.server.drain.Drained? ==> s.up == Pipe([], true))
          && (s.client.Done? ==> s.down == Pipe([], true)))
  }

  ghost predicate Inv(c: Config, s: State) {
    Conserved(c, s) && Phases(c, s)
  }

  // Payload

  lemma PayloadIsFill(size: U64, chunk: nat)
    ensures Payload(size, chunk) == Repeat(FILL, size)
  {
    BlocksCoverTotal(size, ClampChunk(chunk));
    ConcatFills(FILL, Blocks(size, ClampChunk(chunk)));
  }

  lemma InitInv(c: Config)
    ensures Inv(c, Init(c))
  {
  }

  // Every step keeps the invariant

  /** What a server that has read `acc` knows about the frame. */
  lemma AccIsFramePrefix(c: Config, s: State)
    requires Inv(c, s) && s.server.ReadingHeader?
    ensures s.server.acc == Frame(c.Announced())[..|s.server.acc|]
    ensures |s.server.acc| >= 2 ==> FrameLength(s.server.acc) == |Frame(c.Announced())|
    ensures FrameLength(s.server.acc) <= |Frame(c.Announced())|
  {
    var acc, f := s.server.acc, Frame(c.Announced());
    var plan := ClientPlan(c);
    assert acc == plan[..|acc|];
    assert f[..|acc|] == plan[..|acc|];
    if |acc| >= 2 {
      assert acc[..2] == f[..2];
      FrameLengthIsExact(c.Announced(), acc);
    }
  }

  lemma CancelPrefix(f: seq<Byte>, x: seq<Byte>, y: seq<Byte>, p: seq<Byte>)
    requires f + x + y == f + p
    ensures [] + x + y == p && [] + [] + p == p
  {
    assert x + y == (f + x + y)[|f|..];
    assert p == (f + p)[|f|..];
  }

  /** The server reads exactly the header that was sent, and answers with the bytes it names. */
  lemma HeaderParseResult(c: Config, s: State, u: nat, d: nat)
    requires Inv(c, s) && Enabled(c, s, HeaderParse, u, d)
    ensures s.server.acc == Frame(c.Announced())
    ensures ReadFrame(s.server.acc) == Got(Header(Throughput, c.size, Some(1), Some(c.chunk)), [])
    ensures Step(c, s, HeaderParse, u, d)
         == s.(server := Serving(Draining([]), Sending(Payload(c.size, c.chunk))))
  {
    AccIsFramePrefix(c, s);
    assert s.server.acc == Frame(c.Announced());
    FrameRoundTrip(c.Announced(), []);
    assert Frame(c.Announced()) + [] == Frame(c.Announced());
  }

  lemma HeaderParseInv(c: Config, s: State, u: nat, d: nat)
    requires Inv(c, s) && Enabled(c, s, HeaderParse, u, d)
    ensures Inv(c, Step(c, s, HeaderParse, u, d))
  {
    HeaderParseResult(c, s, u, d);
    CancelPrefix(Frame(c.Announced()), s.up.buf, Unsent(s), Payload(c.size, c.chunk));
  }

  lemma StepInv(c: Config, s: State, a: Action, u: nat, d: nat)
    requires Inv(c, s) && Enabled(c, s, a, u, d)
    ensures Inv(c, Step(c, s, a, u, d))
  {
    match a
    case ClientWrite(n) =>
      var before := match s.server case ReadingHeader(acc) => acc case Serving(drain, _) => drain.got;
      Push(before, s.up.buf, s.client.outbox, n);
    case HeaderRead(n) =>
      AccIsFramePrefix(c, s);
      Shift(s.server.acc, s.up.buf, Unsent(s), n);
    case HeaderParse => HeaderParseInv(c, s, u, d);
    case DrainRead(n) => Shift(s.server.drain.got, s.up.buf, Unsent(s), n);
    case ClientRead(n) => Shift(s.client.got, s.down.buf, Unanswered(s), n);
    case SendWrite(n) => Push(Received(s), s.down.buf, s.server.send.outbox, n);
    case _ =>
  }

  // Every step brings the end nearer

  function ClientRank(cl: Client): nat {
    match cl case Uploading(_) => 3 case AwaitingStopped => 2 case Downloading(_) => 1 case Done(_) => 0
  }

  function ServerRank(c: Config, sv: Server): nat {
    match sv
    case ReadingHeader(_) => 2 * c.size + 4
    case Serving(drain, send) =>
      (if drain.Draining? then 1 else 0)
      + (match send case Sending(out) => 2 * |out| + 2 case AwaitingPeer => 1 case Sent => 0)
    case HeaderFailed => 0
  }

  function Measure(c: Config, s: State): nat {
    2 * |Unsent(s)| + |s.up.buf| + |s.down.buf| + ClientRank(s.client) + ServerRank(c, s.server)
  }

  lemma MeasureDecreases(c: Config, s: State, a: Action, u: nat, d: nat)
    requires Inv(c, s) && Enabled(c, s, a, u, d)
    ensures Measure(c, Step(c, s, a, u, d)) < Measure(c, s)
  {
    if a.HeaderParse? {
      HeaderParseResult(c, s, u, d);
      PayloadIsFill(c.size, c.chunk);
    }
  }

  // Some step is always possible

  /** What a stream can do next: something on its own, or a write that needs connection credit. */
  datatype Move = Local(a: Action) | WantsUp | WantsDown | Finished

  /**
    What such a move promises. A stream that cannot move on its own has nothing in flight
    upwards; if moreover it is not held up by upload credit it has nothing in flight
    downwards either, and it is either about to send or over.
  */
  ghost predicate CanMove(c: Config, s: State, m: Move) {
    match m
    case Local(a) => Enabled(c, s, a, 0, 0) && Guaranteed(s, a)
    case WantsUp => s.up.buf == [] && Enabled(c, s, ClientWrite(1), 1, 0)
    case WantsDown => s.up.buf == [] && s.down.buf == [] && Enabled(c, s, SendWrite(1), 0, 1)
    case Finished => Final(s) && s.up.buf == [] && s.down.buf == []
  }

  ghost function NextMove(s: State): Move {
    match s.server
    case HeaderFailed => Finished
    case ReadingHeader(acc) =>
      if |acc| == FrameLength(acc) && |acc| >= 2 then Local(HeaderParse)
      else if s.up.buf != [] then Local(HeaderRead(1))
      else WantsUp
    case Serving(Draining(_), _) =>
      if s.up.buf != [] then Local(DrainRead(1))
      else if s.up.finished then Local(DrainEnd)
      else if Unsent(s) == [] then Local(ClientFinish)
      else WantsUp
    case Serving(Drained(_), send) =>
      match s.client
      case Uploading(_) => WantsUp
      case AwaitingStopped => Local(ClientStopped)
      case Downloading(_) =>
        if s.down.buf != [] then Local(ClientRead(1))
        else if s.down.finished then Local(ClientEnd)
        else if Unanswered(s) == [] then Local(SendFinish)
        else WantsDown
      case Done(_) => if send.AwaitingPeer? then Local(SendStopped) else Finished
  }

  lemma NextMoveIsPossible(c: Config, s: State)
    requires c.Valid() && Inv(c, s)
    ensures CanMove(c, s, NextMove(s))
  {
    if s.server.ReadingHeader? {
      AccIsFramePrefix(c, s);
      if s.up.buf == [] {
        assert |s.server.acc + s.up.buf + Unsent(s)| == |ClientPlan(c)|;
      }
    }
  }

  /** Credit is only ever a further restriction. */
  lemma CreditMonotone(c: Config, s: State, a: Action, u: nat, d: nat, u': nat, d': nat)
    requires Enabled(c, s, a, u, d) && u <= u' && d <= d'
    ensures Enabled(c, s, a, u', d')
    ensures Step(c, s, a, u', d') == Step(c, s, a, u, d)
  {
  }

  /** When a stream is over, each side has received exactly the bytes the other sent. */
  lemma FinalTotals(c: Config, s: State)
    requires Inv(c, s) && Final(s)
    ensures s.client.got == Repeat(FILL, c.size) && s.server.drain.got == Repeat(FILL, c.size)
  {
    PayloadIsFill(c.size, c.chunk);
  }

  // Why the server's two tasks run concurrently

  /** The steps of a server that would first send its answer and only then drain. */
  ghost predicate SequentialEnabled(c: Config, s: State, a: Action, u: nat, d: nat) {
    Enabled(c, s, a, u, d) && (a.DrainRead? || a.DrainEnd? ==> s.server.send.Sent?)
  }

  ghost predicate SequentialNext(c: Config, s: State, m: (Action, nat, nat), s': State) {
    var (a, u, d) := m;
    SequentialEnabled(c, s, a, u, d) && s' == Step(c, s, a, u, d)
  }

  ghost predicate IsSequentialRun(c: Config, run: seq<State>, acts: seq<(Action, nat, nat)>) {
    && |run| == |acts| + 1 && run[0] == Init(c)
    && forall i :: 0 <= i < |acts| ==> SequentialNext(c, run[i], acts[i], run[i + 1])
  }

  /** The client is still uploading and the server still sending; nothing sent has been drained. */
  ghost predicate BothSending(s: State) {
    s.client.Uploading? && (s.server.Serving? ==> s.server.drain == Draining([]) && s.server.send.Sending?)
  }

  lemma SequentialStep(c: Config, s: State, m: (Action, nat, nat), s': State)
    requires Inv(c, s) && BothSending(s) && SequentialNext(c, s, m, s')
    requires c.size > c.upWindow && c.size > c.downWindow
    ensures Inv(c, s') && BothSending(s')
  {
    var (a, u, d) := m;
    StepInv(c, s, a, u, d);
    PayloadIsFill(c.size, c.chunk);
    if a.HeaderParse? {
      HeaderParseResult(c, s, u, d);
    }
  }

  /**
    Such a server would never let a test end once the data exceeds both windows, whatever
    the schedule: both sides would still be sending. Draining alongside sending is needed.
  */
  lemma {:induction false} SequentialServerNeverFinishes(c: Config, run: seq<State>, acts: seq<(Action, nat, nat)>, k: nat)
    requires IsSequentialRun(c, run, acts) && k <= |acts|
    requires c.size > c.upWindow && c.size > c.downWindow
    ensures Inv(c, run[k]) && BothSending(run[k]) && !Final(run[k])
  {
    if k == 0 {
      InitInv(c);
    } else {
      SequentialServerNeverFinishes(c, run, acts, k - 1);
      SequentialStep(c, run[k - 1], acts[k - 1], run[k]);
    }
  }

  lemma SequentialMove(c: Config, s: State) returns (m: (Action, nat, nat))
    requires c.Valid() && Inv(c, s) && !Final(s) && (c.size <= c.upWindow || c.size <= c.downWindow)
    ensures SequentialEnabled(c, s, m.0, m.1, m.2)
  {
    if s.server.Serving? && s.server.send.AwaitingPeer? { return (SendStopped, 0, 0); }
    if s.server.Serving? && s.server.send.Sending? {
      if s.server.send.outbox == [] { return (SendFinish, 0, 0); }
      if |s.down.buf| < c.downWindow { return (SendWrite(1), 0, 1); }
      m := SequentialClientMove(c, s);
      return;
    }
    NextMoveIsPossible(c, s);
    return if NextMove(s).Local? then (NextMove(s).a, 0, 0) else (ClientWrite(1), 1, 0);
  }

  /** When the way down is full, everything finds room on the way up, and then the client drains. */
  lemma SequentialClientMove(c: Config, s: State) returns (m: (Action, nat, nat))
    requires c.Valid() && Inv(c, s) && (c.size <= c.upWindow || c.size <= c.downWindow)
    requires s.server.Serving? && s.server.send.Sending? && s.server.send.outbox != [] && |s.down.buf| >= c.downWindow
    ensures SequentialEnabled(c, s, m.0, m.1, m.2)
  {
    PayloadIsFill(c.size, c.chunk);
    assert |Received(s) + s.down.buf + Unanswered(s)| == c.size;
    assert |s.server.drain.got + s.up.buf + Unsent(s)| == c.size;
    match s.client
    case Uploading(outbox) => return if outbox == [] then (ClientFinish, 0, 0) else (ClientWrite(1), 1, 0);
    case AwaitingStopped => return (ClientStopped, 0, 0);
    case Downloading(_) => return (ClientRead(1), 0, 0);
  }

  lemma {:induction false} SequentialRunInv(c: Config, run: seq<State>, acts: seq<(Action, nat, nat)>, k: nat)
    requires IsSequentialRun(c, run, acts) && k <= |acts|
    ensures Inv(c, run[k])
  {
    if k == 0 {
      InitInv(c);
    } else {
      SequentialRunInv(c, run, acts, k - 1);
      assert SequentialNext(c, run[k - 1], acts[k - 1], run[k]);
      var (a, u, d) := acts[k - 1];
      StepInv(c, run[k - 1], a, u, d);
    }
  }

  lemma {:induction false} SequentialEnds(c: Config, run: seq<State>, acts: seq<(Action, nat, nat)>)
    returns (run': seq<State>, acts': seq<(Action, nat, nat)>)
    requires c.Valid() && IsSequentialRun(c, run, acts) && (c.size <= c.upWindow || c.size <= c.downWindow)
    ensures IsSequentialRun(c, run', acts') && Final(run'[|acts'|])
    decreases Measure(c, run[|acts|])
  {
    var s := run[|acts|];
    if Final(s) {
      run', acts' := run, acts;
    } else {
      SequentialRunInv(c, run, acts, |acts|);
      var m := SequentialMove(c, s);
      MeasureDecreases(c, s, m.0, m.1, m.2);
      run', acts' := SequentialEnds(c, run + [Step(c, s, m.0, m.1, m.2)], acts + [m]);
    }
  }

  /** Exactly the tests whose data fits one of the two windows could end with such a server. */
  lemma SequentialServerEndsIff(c: Config)
    requires c.Valid()
    ensures (exists run, acts :: IsSequentialRun(c, run, acts) && Final(run[|acts|]))
            <==> c.size <= c.upWindow || c.size <= c.downWindow
  {
    if c.size <= c.upWindow || c.size <= c.downWindow {
      var run, acts := SequentialEnds(c, [Init(c)], []);
    } else {
      forall run, acts | IsSequentialRun(c, run, acts) ensures !Final(run[|acts|]) {
        SequentialServerNeverFinishes(c, run, acts, |acts|);
      }
    }
  }
}
