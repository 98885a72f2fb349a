/**
  A whole doctor session as a step system. The active side runs its send, receive and echo
  tests in turn, each on a stream of its own; the passive side accepts the streams in the order
  in which they were opened and serves one at a time, by the request it reads from it. Both
  directions of a stream are ordered byte channels with windows; reads and writes move any
  positive number of bytes.
*/
module DoctorSession {
  import opened Postcard
  import opened Protocol
  import opened Streams
  import opened Doctor

  const BLOCK_SIZE: U32 := 1024 * 1024

  /** `data` is what the active side sends; `copyBuffer` is the size of the passive side's echo buffer. */
  datatype Session = Session(iterations: U64, data: seq<Byte>, upWindow: nat, downWindow: nat, copyBuffer: nat) {
    ghost predicate Valid() {
      |data| < 0x1_0000_0000_0000_0000 && upWindow > 0 && downWindow > 0 && copyBuffer > 0
    }

    function Size(): (n: U64)
      requires |data| < 0x1_0000_0000_0000_0000
    {
      |data|
    }

    function Streams(): nat { 3 * iterations }
  }

  datatype Test = SendTest | RecvTest | EchoTest

  function TestOf(stream: nat): Test {
    if stream % 3 == 0 then SendTest else if stream % 3 == 1 then RecvTest else EchoTest
  }

  function RequestFor(c: Session, t: Test): TestStreamRequest
    requires c.Valid()
  {
    match t
    case SendTest => Drain(c.Size())
    case RecvTest => Send(c.Size(), BLOCK_SIZE)
    case EchoTest => Echo(c.Size())
  }

  /** What the active side uploads after the request. */
  function Upload(c: Session, t: Test): seq<Byte> {
    if t.RecvTest? then [] else c.data
  }

  /** What the active side should get back. */
  function Answer(c: Session, t: Test): seq<Byte>
    requires c.Valid()
  {
    match t
    case SendTest => []
    case RecvTest => BlockBytes(c.Size(), BLOCK_SIZE)
    case EchoTest => c.data
  }

  datatype Active =
    | Running(request: seq<Byte>, spawned: bool, data: seq<Byte>, got: seq<Byte>, gotEnd: bool)
    | Closing
    | Closed
    | EnsureFailed

  datatype Passive =
    | Accepting
    | ReadingRequest(acc: seq<Byte>)
    | Sinking(got: seq<Byte>)
    | SendingBlocks(outbox: seq<Byte>)
    | Copying(held: seq<Byte>, room: nat, ended: bool)
    | Stopped
    | HandlerFailed
    | SendingForEver

  /** Both directions of one stream. */
  datatype Wire = Wire(up: Pipe, down: Pipe)

  const Fresh := Wire(Pipe([], false), Pipe([], false))

  /**
    `wires` are the streams opened so far. The active side is at work on stream `stream`; the
    passive side is at work on, or will accept next, stream `served`.
  */
  datatype State = State(stream: nat, active: Active, served: nat, passive: Passive, wires: seq<Wire>) {
    function At(i: nat): Wire { if i < |wires| then wires[i] else Fresh }

    /** The active side's stream. */
    function Up(): Pipe { At(stream).up }
    function Down(): Pipe { At(stream).down }

    /** The passive side's stream. */
    function In(): Pipe { At(served).up }
    function Out(): Pipe { At(served).down }

    function WithWire(i: nat, w: Wire): State {
      if i < |wires| then this.(wires := wires[i := w]) else this
    }

    function WithUp(p: Pipe): State { WithWire(stream, At(stream).(up := p)) }
    function WithDown(p: Pipe): State { WithWire(stream, At(stream).(down := p)) }
    function WithIn(p: Pipe): State { WithWire(served, At(served).(up := p)) }
    function WithOut(p: Pipe): State { WithWire(served, At(served).(down := p)) }
  }

  datatype Action =
    | WriteRequest(n: nat) | Spawn | WriteData(n: nat) | Finish | CopyRead(n: nat) | CopyEnd | Join | Close
    | Accept | RequestRead(n: nat) | RequestDecode
    | SinkRead(n: nat) | SinkEnd
    | BlockWrite(n: nat) | BlocksEnd
    | EchoRead(n: nat) | EchoReadEnd | EchoWrite(n: nat) | EchoEnd
    | PassiveStop

  function Start(c: Session, stream: nat): Active
    requires c.Valid()
  {
    if stream < c.Streams() then
      Running(PaddedRequest(RequestFor(c, TestOf(stream))), false, Upload(c, TestOf(stream)), [], false)
    else Closing
  }

  /** What is opened for test `stream`, if there is one. */
  function Opened(c: Session, stream: nat): seq<Wire> { if stream < c.Streams() then [Fresh] else [] }

  function Init(c: Session): State
    requires c.Valid()
  {
    State(0, Start(c, 0), 0, Accepting, Opened(c, 0))
  }

  ghost predicate Enabled(c: Session, s: State, a: Action) {
    match a
    // active side
    case WriteRequest(n) => s.active.Running? && 0 < n <= |s.active.request| && |s.Up().buf| + n <= c.upWindow
    case Spawn => s.active.Running? && s.active.request == [] && !s.active.spawned
    case WriteData(n) =>
      s.active.Running? && s.active.spawned && 0 < n <= |s.active.data| && |s.Up().buf| + n <= c.upWindow
    case Finish => s.active.Running? && s.active.spawned && s.active.data == [] && !s.Up().finished
    case CopyRead(n) => s.active.Running? && s.active.spawned && !s.active.gotEnd && 0 < n <= |s.Down().buf|
    case CopyEnd => s.active.Running? && s.active.spawned && !s.active.gotEnd && s.Down() == Pipe([], true)
    case Join => s.active.Running? && s.Up().finished && s.active.gotEnd
    case Close => s.active.Closing?
    // passive side: a stream is seen once something arrives on it
    case Accept => s.passive.Accepting? && s.served < |s.wires| && (s.In().buf != [] || s.In().finished)
    case RequestRead(n) =>
      s.passive.ReadingRequest? && 0 < n <= |s.In().buf| && |s.passive.acc| + n <= REQUEST_MAX_SIZE
    case RequestDecode => s.passive.ReadingRequest? && |s.passive.acc| == REQUEST_MAX_SIZE
    case SinkRead(n) => s.passive.Sinking? && 0 < n <= |s.In().buf|
    case SinkEnd => s.passive.Sinking? && s.In() == Pipe([], true)
    case BlockWrite(n) =>
      s.passive.SendingBlocks? && 0 < n <= |s.passive.outbox| && |s.Out().buf| + n <= c.downWindow
    case BlocksEnd => s.passive == SendingBlocks([])
    case EchoRead(n) => s.passive.Copying? && !s.passive.ended && 0 < n <= s.passive.room && n <= |s.In().buf|
    case EchoReadEnd => s.passive.Copying? && !s.passive.ended && s.passive.room > 0 && s.In() == Pipe([], true)
    case EchoWrite(n) => s.passive.Copying? && 0 < n <= |s.passive.held| && |s.Out().buf| + n <= c.downWindow
    case EchoEnd => s.passive.Copying? && s.passive.ended && s.passive.held == []
    case PassiveStop => s.active.Closed? && !s.passive.Stopped?
  }

  function Handler(c: Session, r: TestStreamRequest): Passive {
    match r
    case Echo(_) => Copying([], c.copyBuffer, false)
    case Drain(_) => Sinking([])
    case Send(bytes, blockSize) =>
      if Endless(Got(r, [])) then SendingForEver else SendingBlocks(BlockBytes(bytes, blockSize))
  }

  /** What the active side insists on when a test is over. */
  predicate Ensured(c: Session, t: Test, received: nat) {
    received == if t.SendTest? then 0 else |c.data|
  }

  ghost function Step(c: Session, s: State, a: Action): State
    requires c.Valid() && Enabled(c, s, a)
  {
    match a
    case WriteRequest(n) =>
      var up := s.Up().(buf := s.Up().buf + s.active.request[..n]);
      s.WithUp(up).(active := s.active.(request := s.active.request[n..]))
    case Spawn => s.(active := s.active.(spawned := true))
    case WriteData(n) =>
      var up := s.Up().(buf := s.Up().buf + s.active.data[..n]);
      s.WithUp(up).(active := s.active.(data := s.active.data[n..]))
    case Finish => s.WithUp(s.Up().(finished := true))
    case CopyRead(n) =>
      var down := s.Down().(buf := s.Down().buf[n..]);
      s.WithDown(down).(active := s.active.(got := s.active.got + s.Down().buf[..n]))
    case CopyEnd => s.(active := s.active.(gotEnd := true))
    case Join =>
      if Ensured(c, TestOf(s.stream), |s.active.got|) then
        s.(stream := s.stream + 1, active := Start(c, s.stream + 1), wires := s.wires + Opened(c, s.stream + 1))
      else s.(active := EnsureFailed)
    case Close => s.(active := Closed)
    case Accept => s.(passive := ReadingRequest([]))
    case RequestRead(n) =>
      s.WithIn(Rest(s.In(), n)).(passive := ReadingRequest(s.passive.acc + s.In().buf[..n]))
    case RequestDecode =>
      (match TakeRequest(s.passive.acc)
       case Got(r, _) => s.(passive := Handler(c, r))
       case Bad => s.(passive := HandlerFailed))
    case SinkRead(n) => s.WithIn(Rest(s.In(), n)).(passive := Sinking(s.passive.got + s.In().buf[..n]))
    case SinkEnd => Served(s)
    case BlockWrite(n) =>
      var out := s.Out().(buf := s.Out().buf + s.passive.outbox[..n]);
      s.WithOut(out).(passive := SendingBlocks(s.passive.outbox[n..]))
    case BlocksEnd => Served(s)
    case EchoRead(n) =>
      s.WithIn(Rest(s.In(), n)).(passive := s.passive.(held := s.passive.held + s.In().buf[..n], room := s.passive.room - n))
    case EchoReadEnd => s.(passive := s.passive.(ended := true))
    case EchoWrite(n) =>
      var out, held := s.Out().(buf := s.Out().buf + s.passive.held[..n]), s.passive.held[n..];
      s.WithOut(out).(passive := s.passive.(held := held, room := if held == [] then c.copyBuffer else s.passive.room))
    case EchoEnd => Served(s)
    case PassiveStop => s.(passive := Stopped)
  }

  function Rest(p: Pipe, n: nat): Pipe
    requires n <= |p.buf|
  {
    p.(buf := p.buf[n..])
  }

  function Served(s: State): State {
    s.WithOut(s.Out().(finished := true)).(passive := Accepting, served := s.served + 1)
  }

  ghost predicate Final(s: State) {
    s.active.Closed? && s.passive.Stopped?
  }

  // The invariant

  /** Everything sent on a stream so far is the request and the upload, in order, with nothing answered. */
  ghost predicate BeforeRequest(c: Session, s: State, acc: seq<Byte>)
    requires c.Valid() && s.active.Running?
  {
    && s.served == s.stream
    && acc + s.Up().buf + s.active.request + s.active.data
       == PaddedRequest(RequestFor(c, TestOf(s.stream))) + Upload(c, TestOf(s.stream))
    && s.Down() == Fresh.down && s.active.got == []
  }

  /** Where the bytes of the test are, once its request has been decoded. */
  ghost predicate Conserved(c: Session, s: State)
    requires c.Valid() && s.active.Running?
  {
    var t, a := TestOf(s.stream), s.active;
    match s.passive
    case Accepting =>
      if s.served == s.stream then BeforeRequest(c, s, [])
      else
        && s.served == s.stream + 1 && a.request == [] && a.data == [] && s.Up().buf == []
        && s.Down().finished && a.got + s.Down().buf == Answer(c, t)
    case ReadingRequest(acc) => BeforeRequest(c, s, acc) && |acc| <= REQUEST_MAX_SIZE
    case Sinking(got) =>
      && s.served == s.stream && t == SendTest && a.request == []
      && got + s.Up().buf + a.data == c.data && s.Down() == Fresh.down && a.got == []
    case SendingBlocks(outbox) =>
      && s.served == s.stream && t == RecvTest && a.request == [] && a.data == [] && s.Up().buf == []
      && a.got + s.Down().buf + outbox == Answer(c, t) && !s.Down().finished
    case Copying(held, room, ended) =>
      && s.served == s.stream && t == EchoTest && a.request == []
      && a.got + s.Down().buf + held + s.Up().buf + a.data == c.data && !s.Down().finished
      && |held| + room <= c.copyBuffer && (held == [] ==> room == c.copyBuffer)
      && (ended ==> s.Up() == Pipe([], true))
    case Stopped => false
    case HandlerFailed => false
    case SendingForEver => false
  }

  ghost predicate ActivePhases(c: Session, s: State)
    requires s.active.Running?
  {
    var t, a := TestOf(s.stream), s.active;
    && s.stream < c.Streams() && |s.wires| == s.stream + 1
    && |s.Up().buf| <= c.upWindow && |s.Down().buf| <= c.downWindow
    && |a.data| <= |Upload(c, t)|
    && (a.spawned ==> a.request == [])
    && (!a.spawned ==> a.data == Upload(c, t) && a.got == [] && !a.gotEnd && !s.Up().finished)
    && (s.Up().finished ==> a.data == [])
    && (a.gotEnd ==> s.Down() == Pipe([], true))
  }

  /** In particular, no `ensure!` of the active side and no request decoding has ever failed. */
  ghost predicate Inv(c: Session, s: State)
    requires c.Valid()
  {
    match s.active
    case Running(_, _, _, _, _) => ActivePhases(c, s) && Conserved(c, s)
    case Closing => s.stream == s.served == |s.wires| == c.Streams() && s.passive.Accepting?
    case Closed => s.stream == s.served == |s.wires| == c.Streams() && (s.passive.Accepting? || s.passive.Stopped?)
    case EnsureFailed => false
  }

  // Steps keep the invariant

  lemma StartInv(c: Session, s: State)
    requires c.Valid() && s.stream == s.served <= c.Streams()
    requires s.active == Start(c, s.stream) && s.passive.Accepting? && s.At(s.stream) == Fresh
    requires |s.wires| == s.stream + |Opened(c, s.stream)|
    ensures Inv(c, s)
  {
    if s.stream < c.Streams() {
      EmptyPrefixes(s.active.request, s.active.data, []);
    }
  }

  lemma InitInv(c: Session)
    requires c.Valid()
    ensures Inv(c, Init(c))
  {
    StartInv(c, Init(c));
  }

  lemma WriteRequestInv(c: Session, s: State, n: nat)
    requires c.Valid() && Inv(c, s) && Enabled(c, s, WriteRequest(n))
    ensures Inv(c, Step(c, s, WriteRequest(n)))
  {
    var acc := if s.passive.ReadingRequest? then s.passive.acc else [];
    Push(acc, s.Up().buf, s.active.request, n);
  }

  lemma WriteDataInv(c: Session, s: State, n: nat)
    requires c.Valid() && Inv(c, s) && Enabled(c, s, WriteData(n))
    ensures Inv(c, Step(c, s, WriteData(n)))
  {
    var a := match s.passive
      case ReadingRequest(acc) => acc
      case Sinking(got) => got
      case Copying(held, _, _) => s.active.got + s.Down().buf + held
      case _ => [];
    Push(a, s.Up().buf, s.active.data, n);
    var buf := s.Up().buf + s.active.data[..n];
    assert a + buf + [] == a + buf && a + s.Up().buf + [] == a + s.Up().buf;
  }

  lemma ReceivedIsEnsured(c: Session, t: Test)
    requires c.Valid()
    ensures Ensured(c, t, |Answer(c, t)|)
  {
    if t == RecvTest {
      BlockBytesAreZeros(c.Size(), BLOCK_SIZE);
    }
  }

  /** The active side asks for nothing that a handler would never be done with. */
  lemma RequestForEnds(c: Session, t: Test)
    requires c.Valid()
    ensures !Endless(Got(RequestFor(c, t), []))
  {
  }

  /** What the active side waits for is what a handler owes for the request and upload it sends. */
  lemma AnswerIsReply(c: Session, t: Test)
    requires c.Valid()
    ensures var bytes := PaddedRequest(RequestFor(c, t)) + Upload(c, t);
            && ReadRequest(bytes).Got? && !Endless(ReadRequest(bytes))
            && Answer(c, t) == Reply(ReadRequest(bytes).value, bytes[REQUEST_MAX_SIZE..])
  {
    RequestForEnds(c, t);
    SentRequestIsRead(RequestFor(c, t), Upload(c, t));
  }

  /** When the active side joins a test, it has exactly the answer it wants. */
  lemma JoinInv(c: Session, s: State)
    requires c.Valid() && Inv(c, s) && Enabled(c, s, Join)
    ensures s.active.got == Answer(c, TestOf(s.stream))
    ensures var s' := Step(c, s, Join);
            && Inv(c, s') && s'.stream == s.stream + 1 && s'.served == s'.stream && s'.passive.Accepting?
            && s'.active == Start(c, s'.stream) && s'.At(s'.stream) == Fresh
  {
    assert s.passive.Accepting? && s.served == s.stream + 1;
    assert s.active.got + [] == s.active.got;
    ReceivedIsEnsured(c, TestOf(s.stream));
    StartInv(c, Step(c, s, Join));
  }

  /** The passive side decodes the very request the active side sent on that stream. */
  lemma RequestDecoded(c: Session, s: State)
    requires c.Valid() && Inv(c, s) && Enabled(c, s, RequestDecode)
    ensures s.active.Running? && s.active.request == []
    ensures s.Up().buf + s.active.data == Upload(c, TestOf(s.stream))
    ensures TakeRequest(s.passive.acc).Got?
    ensures TakeRequest(s.passive.acc).value == RequestFor(c, TestOf(s.stream))
  {
    var r, d := PaddedRequest(RequestFor(c, TestOf(s.stream))), Upload(c, TestOf(s.stream));
    SplitAt(s.passive.acc, s.Up().buf, s.active.request, s.active.data, r, d);
    PaddedRequestRoundTrip(RequestFor(c, TestOf(s.stream)));
  }

  lemma DecodeResult(c: Session, s: State)
    requires c.Valid() && Inv(c, s) && Enabled(c, s, RequestDecode)
    ensures s.active.Running? && s.active.request == []
    ensures Step(c, s, RequestDecode) == s.(passive := Handler(c, RequestFor(c, TestOf(s.stream))))
  {
    RequestDecoded(c, s);
  }

  lemma SplitAt(acc: seq<Byte>, buf: seq<Byte>, request: seq<Byte>, data: seq<Byte>, r: seq<Byte>, d: seq<Byte>)
    requires acc + buf + request + data == r + d && |acc| == |r|
    requires request == [] || data == d
    ensures acc == r && request == [] && buf + data == d
  {
    assert acc == (acc + buf + request + data)[..|acc|];
    assert r == (r + d)[..|acc|];
    assert buf + request + data == (acc + buf + request + data)[|acc|..];
    assert d == (r + d)[|acc|..];
  }

  lemma RequestDecodeInv(c: Session, s: State)
    requires c.Valid() && Inv(c, s) && Enabled(c, s, RequestDecode)
    ensures Inv(c, Step(c, s, RequestDecode))
  {
    RequestDecoded(c, s);
    var t := TestOf(s.stream);
    EmptyPrefixes(s.Up().buf, s.active.data, Answer(c, t));
    if t == RecvTest {
      assert s.Up().buf == [] && s.active.data == [] by { assert |s.Up().buf + s.active.data| == 0; }
    }
  }

  lemma EmptyPrefixes(x: seq<Byte>, y: seq<Byte>, z: seq<Byte>)
    ensures [] + x + y == [] + [] + x + y == [] + [] + [] + x + y == x + y
    ensures [] + [] + z == z
  {
  }

  lemma PassiveReadInv(c: Session, s: State, a: Action)
    requires c.Valid() && Inv(c, s) && Enabled(c, s, a) && (a.RequestRead? || a.SinkRead? || a.EchoRead?)
    ensures Inv(c, Step(c, s, a))
  {
    match a
    case RequestRead(n) => Shift(s.passive.acc, s.Up().buf, [], n);
    case SinkRead(n) => Shift(s.passive.got, s.Up().buf, [], n);
    case EchoRead(n) => Push(s.active.got + s.Down().buf, s.passive.held, s.Up().buf, n);
  }

  lemma PassiveWriteInv(c: Session, s: State, a: Action)
    requires c.Valid() && Inv(c, s) && Enabled(c, s, a) && (a.BlockWrite? || a.EchoWrite?)
    ensures Inv(c, Step(c, s, a))
  {
    match a
    case BlockWrite(n) => Push(s.active.got, s.Down().buf, s.passive.outbox, n);
    case EchoWrite(n) => Push(s.active.got, s.Down().buf, s.passive.held, n);
  }

  lemma PassiveEndInv(c: Session, s: State, a: Action)
    requires c.Valid() && Inv(c, s) && Enabled(c, s, a) && (a.SinkEnd? || a.BlocksEnd? || a.EchoEnd?)
    ensures Inv(c, Step(c, s, a))
  {
    assert s.active.got + s.Down().buf + [] == s.active.got + s.Down().buf;
    if a.SinkEnd? {
      assert s.active.got + s.Down().buf == [];
    }
  }

  lemma CopyReadInv(c: Session, s: State, n: nat)
    requires c.Valid() && Inv(c, s) && Enabled(c, s, CopyRead(n))
    ensures Inv(c, Step(c, s, CopyRead(n)))
  {
    Shift(s.active.got, s.Down().buf, [], n);
  }

  /** The steps that move no bytes. */
  lemma FlagStepInv(c: Session, s: State, a: Action)
    requires c.Valid() && Inv(c, s) && Enabled(c, s, a)
    requires a.Spawn? || a.Finish? || a.CopyEnd? || a.Close? || a.Accept? || a.EchoReadEnd? || a.PassiveStop?
    ensures Inv(c, Step(c, s, a))
  {
  }

  lemma StepInv(c: Session, s: State, a: Action)
    requires c.Valid() && Inv(c, s) && Enabled(c, s, a)
    ensures Inv(c, Step(c, s, a))
  {
    match a
    case WriteRequest(n) => WriteRequestInv(c, s, n);
    case WriteData(n) => WriteDataInv(c, s, n);
    case CopyRead(n) => CopyReadInv(c, s, n);
    case Join => JoinInv(c, s);
    case RequestDecode => RequestDecodeInv(c, s);
    case RequestRead(_) => PassiveReadInv(c, s, a);
    case SinkRead(_) => PassiveReadInv(c, s, a);
    case EchoRead(_) => PassiveReadInv(c, s, a);
    case BlockWrite(_) => PassiveWriteInv(c, s, a);
    case EchoWrite(_) => PassiveWriteInv(c, s, a);
    case SinkEnd => PassiveEndInv(c, s, a);
    case BlocksEnd => PassiveEndInv(c, s, a);
    case EchoEnd => PassiveEndInv(c, s, a);
    case _ => FlagStepInv(c, s, a);
  }

  // Steps bring the end nearer

  function PassiveRank(c: Session, s: State): nat {
    match s.passive
    case Accepting => if s.served == s.stream then 2 * |c.data| + 6 else 0
    case ReadingRequest(_) => 2 * |c.data| + 5
    case Sinking(_) => 1
    case SendingBlocks(outbox) => 2 * |outbox| + 1
    case Copying(held, _, ended) => 2 * |held| + if ended then 1 else 2
    case _ => 0
  }

  /** What the current test has yet to do: each byte counts once for every hop before it. */
  function StreamMeasure(c: Session, s: State): nat {
    match s.active
    case Running(request, spawned, data, _, gotEnd) =>
      4 * (|request| + |data|) + 3 * |s.Up().buf| + |s.Down().buf| + PassiveRank(c, s)
      + (if spawned then 0 else 1) + (if s.Up().finished then 0 else 1) + (if gotEnd then 0 else 1)
    case Closing => 2
    case Closed => if s.passive.Stopped? then 0 else 1
    case EnsureFailed => 0
  }

  function PerStream(c: Session): nat { 6 * |c.data| + 80 }

  function Measure(c: Session, s: State): nat {
    (if s.stream <= c.Streams() then c.Streams() - s.stream else 0) * PerStream(c) + StreamMeasure(c, s)
  }

  lemma HandlerRank(c: Session, s: State, t: Test)
    requires c.Valid() && s.passive == Handler(c, RequestFor(c, t))
    ensures PassiveRank(c, s) <= 2 * |c.data| + 2
  {
    BlockBytesAreZeros(c.Size(), BLOCK_SIZE);
  }

  lemma DecodeDecreases(c: Session, s: State)
    requires c.Valid() && Inv(c, s) && Enabled(c, s, RequestDecode)
    ensures StreamMeasure(c, Step(c, s, RequestDecode)) < StreamMeasure(c, s)
  {
    DecodeResult(c, s);
    HandlerRank(c, Step(c, s, RequestDecode), TestOf(s.stream));
  }

  lemma ActiveStepDecreases(c: Session, s: State, a: Action)
    requires c.Valid() && Inv(c, s) && Enabled(c, s, a)
    requires a.WriteRequest? || a.Spawn? || a.WriteData? || a.Finish? || a.CopyRead? || a.CopyEnd? || a.Close?
    ensures StreamMeasure(c, Step(c, s, a)) < StreamMeasure(c, s)
  {
  }

  lemma PassiveReadDecreases(c: Session, s: State, a: Action)
    requires c.Valid() && Inv(c, s) && Enabled(c, s, a)
    requires a.Accept? || a.RequestRead? || a.SinkRead? || a.EchoRead? || a.EchoReadEnd? || a.PassiveStop?
    ensures StreamMeasure(c, Step(c, s, a)) < StreamMeasure(c, s)
  {
  }

  lemma PassiveStepDecreases(c: Session, s: State, a: Action)
    requires c.Valid() && Inv(c, s) && Enabled(c, s, a)
    requires a.SinkEnd? || a.BlockWrite? || a.BlocksEnd? || a.EchoWrite? || a.EchoEnd?
    ensures StreamMeasure(c, Step(c, s, a)) < StreamMeasure(c, s)
  {
  }

  lemma LocalStepDecreases(c: Session, s: State, a: Action)
    requires c.Valid() && Inv(c, s) && Enabled(c, s, a) && !a.Join?
    ensures StreamMeasure(c, Step(c, s, a)) < StreamMeasure(c, s)
  {
    match a
    case RequestDecode => DecodeDecreases(c, s);
    case WriteRequest(_) => ActiveStepDecreases(c, s, a);
    case Spawn => ActiveStepDecreases(c, s, a);
    case WriteData(_) => ActiveStepDecreases(c, s, a);
    case Finish => ActiveStepDecreases(c, s, a);
    case CopyRead(_) => ActiveStepDecreases(c, s, a);
    case CopyEnd => ActiveStepDecreases(c, s, a);
    case Close => ActiveStepDecreases(c, s, a);
    case SinkEnd => PassiveStepDecreases(c, s, a);
    case BlockWrite(_) => PassiveStepDecreases(c, s, a);
    case BlocksEnd => PassiveStepDecreases(c, s, a);
    case EchoWrite(_) => PassiveStepDecreases(c, s, a);
    case EchoEnd => PassiveStepDecreases(c, s, a);
    case _ => PassiveReadDecreases(c, s, a);
  }

  lemma StartMeasure(c: Session, s: State)
    requires c.Valid() && s.active == Start(c, s.stream) && s.At(s.stream) == Fresh
    requires s.passive.Accepting? && s.served == s.stream
    ensures StreamMeasure(c, s) < PerStream(c)
  {
  }

  lemma LocalStepKeepsStream(c: Session, s: State, a: Action)
    requires c.Valid() && Enabled(c, s, a) && !a.Join?
    ensures Step(c, s, a).stream == s.stream
  {
  }

  lemma JoinDecreases(c: Session, s: State)
    requires c.Valid() && Inv(c, s) && Enabled(c, s, Join)
    ensures Measure(c, Step(c, s, Join)) < Measure(c, s)
  {
    JoinInv(c, s);
    StartMeasure(c, Step(c, s, Join));
    var left := c.Streams() - s.stream;
    assert left * PerStream(c) == (left - 1) * PerStream(c) + PerStream(c);
  }

  lemma MeasureDecreases(c: Session, s: State, a: Action)
    requires c.Valid() && Inv(c, s) && Enabled(c, s, a)
    ensures Measure(c, Step(c, s, a)) < Measure(c, s)
  {
    if a.Join? {
      JoinDecreases(c, s);
    } else {
      LocalStepKeepsStream(c, s, a);
      LocalStepDecreases(c, s, a);
    }
  }

  // Some step is always possible

  lemma RequestStageMoves(c: Session, s: State) returns (a: Action)
    requires c.Valid() && Inv(c, s) && s.active.Running?
    requires s.passive.ReadingRequest? || (s.passive.Accepting? && s.served == s.stream)
    ensures Enabled(c, s, a)
  {
    var r, d := PaddedRequest(RequestFor(c, TestOf(s.stream))), Upload(c, TestOf(s.stream));
    var acc := if s.passive.ReadingRequest? then s.passive.acc else [];
    assert |acc| + |s.Up().buf| + |s.active.request| + |s.active.data| == REQUEST_MAX_SIZE + |d| by {
      assert |acc + s.Up().buf + s.active.request + s.active.data| == |r + d|;
    }
    if |acc| == REQUEST_MAX_SIZE { return RequestDecode; }
    if s.Up().buf == [] { return WriteRequest(1); }
    return if s.passive.ReadingRequest? then RequestRead(1) else Accept;
  }

  lemma AnswerStageMoves(c: Session, s: State) returns (a: Action)
    requires c.Valid() && Inv(c, s) && s.active.Running? && s.active.spawned
    requires s.passive.Sinking? || s.passive.SendingBlocks? || s.passive.Copying?
    ensures Enabled(c, s, a)
  {
    if s.Down().buf != [] { return CopyRead(1); }
    if s.passive.SendingBlocks? { return if s.passive.outbox == [] then BlocksEnd else BlockWrite(1); }
    if s.passive.Copying? && s.passive.held != [] { return EchoWrite(1); }
    if s.Up().buf != [] { return if s.passive.Sinking? then SinkRead(1) else EchoRead(1); }
    if s.active.data != [] { return WriteData(1); }
    if !s.Up().finished { return Finish; }
    if s.passive.Sinking? { return SinkEnd; }
    return if s.passive.ended then EchoEnd else EchoReadEnd;
  }

  /** No deadlock: every reachable state but the final one has an enabled step. */
  lemma SomeStepEnabled(c: Session, s: State) returns (a: Action)
    requires c.Valid() && Inv(c, s) && !Final(s)
    ensures Enabled(c, s, a)
  {
    if s.active.Closing? { return Close; }
    if s.active.Closed? { return PassiveStop; }
    if s.passive.ReadingRequest? || (s.passive.Accepting? && s.served == s.stream) {
      a := RequestStageMoves(c, s);
    } else if !s.active.spawned {
      return Spawn;
    } else if !s.passive.Accepting? {
      a := AnswerStageMoves(c, s);
    } else {
      if !s.Up().finished { return Finish; }
      if s.Down().buf != [] { return CopyRead(1); }
      return if s.active.gotEnd then Join else CopyEnd;
    }
  }

  // Whole runs

  ghost predicate IsRun(c: Session, run: seq<State>, acts: seq<Action>)
    requires c.Valid()
  {
    && |run| == |acts| + 1 && run[0] == Init(c)
    && forall i :: 0 <= i < |acts| ==> Enabled(c, run[i], acts[i]) && run[i + 1] == Step(c, run[i], acts[i])
  }

  lemma {:induction false} RunInv(c: Session, run: seq<State>, acts: seq<Action>, k: nat)
    requires c.Valid() && IsRun(c, run, acts) && k <= |acts|
    ensures Inv(c, run[k])
    ensures Measure(c, run[k]) + k <= Measure(c, run[0])
  {
    if k == 0 {
      InitInv(c);
    } else {
      RunInv(c, run, acts, k - 1);
      StepInv(c, run[k - 1], acts[k - 1]);
      MeasureDecreases(c, run[k - 1], acts[k - 1]);
    }
  }

  /** No check has failed, no request was unreadable, and none is one that is never answered. */
  ghost predicate AllWell(s: State) {
    !s.active.EnsureFailed? && !s.passive.HandlerFailed? && !s.passive.SendingForEver?
  }

  lemma NothingFailed(c: Session, s: State)
    requires c.Valid() && Inv(c, s)
    ensures AllWell(s)
  {
  }

  lemma StuckIsDone(c: Session, s: State)
    requires c.Valid() && Inv(c, s) && forall a :: !Enabled(c, s, a)
    ensures Final(s) && s.stream == s.served == 3 * c.iterations
  {
    if !Final(s) {
      var a := SomeStepEnabled(c, s);
      assert false;
    }
  }

  /**
    However the two sides, the windows and the network interleave, a session of any number
    of iterations passes every check, is never stuck, and ends with every test served.
  */
  lemma EverySessionSucceeds(c: Session, run: seq<State>, acts: seq<Action>)
    requires c.Valid() && IsRun(c, run, acts)
    ensures forall k :: 0 <= k <= |acts| ==> AllWell(run[k])
    ensures |acts| <= Measure(c, Init(c))
    ensures var last := run[|acts|];
            (forall a :: !Enabled(c, last, a)) ==> Final(last) && last.stream == last.served == 3 * c.iterations
  {
    forall k | 0 <= k <= |acts| ensures AllWell(run[k]) {
      RunInv(c, run, acts, k);
      NothingFailed(c, run[k]);
    }
    RunInv(c, run, acts, |acts|);
    if forall a :: !Enabled(c, run[|acts|], a) { StuckIsDone(c, run[|acts|]); }
  }

  /** The check of the active side passes exactly for as many bytes as it is owed. */
  lemma EnsuredIff(c: Session, t: Test, received: nat)
    requires c.Valid()
    ensures Ensured(c, t, received) <==> received == |Answer(c, t)|
  {
    ReceivedIsEnsured(c, t);
  }

  /**
    A joined test has received, in order, what it is for: the first of an iteration nothing, the
    second as many zeros as the session has data, the third the data itself.
  */
  lemma EveryJoinedTestIsAnswered(c: Session, run: seq<State>, acts: seq<Action>, k: nat)
    requires c.Valid() && IsRun(c, run, acts) && k < |acts| && acts[k].Join?
    ensures var i, got := run[k].stream, run[k].active.got;
            && (i % 3 == 0 ==> got == [])
            && (i % 3 == 1 ==> got == Repeat(0, |c.data|))
            && (i % 3 == 2 ==> got == c.data)
    ensures run[k + 1].stream == run[k].stream + 1
  {
    RunInv(c, run, acts, k);
    JoinInv(c, run[k]);
    BlockBytesAreZeros(c.Size(), BLOCK_SIZE);
  }

  /** What test `i` of a session asks for. */
  lemma RequestOfTest(c: Session, i: nat)
    requires c.Valid()
    ensures var r := RequestFor(c, TestOf(i));
            && (i % 3 == 0 ==> r == Drain(|c.data|))
            && (i % 3 == 1 ==> r == Send(|c.data|, 1024 * 1024))
            && (i % 3 == 2 ==> r == Echo(|c.data|))
  {
  }

  /**
    On each stream the passive side decodes what was sent on that stream: to drain, to send in
    blocks of 1 MiB, and to echo, in turn, as many bytes as the session has data. None of these
    is a request that is never answered.
  */
  lemma EveryRequestIsDecoded(c: Session, run: seq<State>, acts: seq<Action>, k: nat)
    requires c.Valid() && IsRun(c, run, acts) && k < |acts| && acts[k].RequestDecode?
    ensures run[k].served == run[k].stream
    ensures var i, d := run[k].served, TakeRequest(run[k].passive.acc);
            && d.Got? && !Endless(d)
            && (i % 3 == 0 ==> d.value == Drain(|c.data|))
            && (i % 3 == 1 ==> d.value == Send(|c.data|, 1024 * 1024))
            && (i % 3 == 2 ==> d.value == Echo(|c.data|))
  {
    RunInv(c, run, acts, k);
    RequestDecoded(c, run[k]);
    RequestOfTest(c, run[k].served);
  }

  /** And it sets out to do that. */
  lemma EveryRequestIsServed(c: Session, run: seq<State>, acts: seq<Action>, k: nat)
    requires c.Valid() && IsRun(c, run, acts) && k < |acts| && acts[k].RequestDecode?
    ensures var i, p := run[k].served, run[k + 1].passive;
            && (i % 3 == 0 ==> p == Sinking([]))
            && (i % 3 == 1 ==> p == SendingBlocks(Repeat(0, |c.data|)))
            && (i % 3 == 2 ==> p == Copying([], c.copyBuffer, false))
  {
    RunInv(c, run, acts, k);
    DecodeResult(c, run[k]);
    RequestForEnds(c, TestOf(run[k].stream));
    RequestDecoded(c, run[k]);
    BlockBytesAreZeros(c.Size(), BLOCK_SIZE);
  }

  /** A passive side that is done draining has received, in order, all that the active side sent. */
  lemma EveryDrainIsComplete(c: Session, run: seq<State>, acts: seq<Action>, k: nat)
    requires c.Valid() && IsRun(c, run, acts) && k < |acts| && acts[k].SinkEnd?
    ensures run[k].served % 3 == 0 && run[k].passive.got == c.data
  {
    RunInv(c, run, acts, k);
    assert run[k].passive.got + [] + [] == run[k].passive.got;
  }

  /**
    The active side is always the last to receive: when it closes the connection, every handler
    is done and the passive side is back at accepting, so the close cuts nothing off.
  */
  lemma CloseIsGraceful(c: Session, run: seq<State>, acts: seq<Action>, k: nat)
    requires c.Valid() && IsRun(c, run, acts) && k < |acts| && acts[k].Close?
    ensures run[k].stream == run[k].served == 3 * c.iterations && run[k].passive.Accepting?
    ensures LeftClean(run[k]) && |run[k].wires| == 3 * c.iterations
  {
    RunInv(c, run, acts, k);
    NothingIsLeftBehind(c, run, acts, k);
  }

  /** The streams of the tests that are over are empty and finished in both directions. */
  ghost predicate LeftClean(s: State) {
    s.stream <= |s.wires| && forall i :: 0 <= i < s.stream ==> s.wires[i] == Wire(Pipe([], true), Pipe([], true))
  }

  /** No side touches a stream before the current one. */
  lemma StepKeepsEarlier(c: Session, s: State, a: Action, i: nat)
    requires c.Valid() && Inv(c, s) && Enabled(c, s, a) && !a.Join? && i < s.stream <= |s.wires|
    ensures |Step(c, s, a).wires| == |s.wires| && Step(c, s, a).wires[i] == s.wires[i]
  {
  }

  lemma JoinLeavesClean(c: Session, s: State)
    requires c.Valid() && Inv(c, s) && LeftClean(s) && Enabled(c, s, Join)
    ensures LeftClean(Step(c, s, Join))
  {
    JoinInv(c, s);
    assert s.wires[s.stream] == Wire(Pipe([], true), Pipe([], true));
    var s' := Step(c, s, Join);
    forall i | 0 <= i < s'.stream ensures s'.wires[i] == Wire(Pipe([], true), Pipe([], true)) {
      assert s'.wires[i] == s.wires[i];
    }
  }

  lemma StepLeavesClean(c: Session, s: State, a: Action)
    requires c.Valid() && Inv(c, s) && LeftClean(s) && Enabled(c, s, a)
    ensures LeftClean(Step(c, s, a))
  {
    if a.Join? {
      JoinLeavesClean(c, s);
    } else {
      LocalStepKeepsStream(c, s, a);
      forall i | 0 <= i < s.stream ensures |Step(c, s, a).wires| == |s.wires| && Step(c, s, a).wires[i] == s.wires[i] {
        StepKeepsEarlier(c, s, a, i);
      }
    }
  }

  /** So no byte of a test is ever left to be taken for another's. */
  lemma {:induction false} NothingIsLeftBehind(c: Session, run: seq<State>, acts: seq<Action>, k: nat)
    requires c.Valid() && IsRun(c, run, acts) && k <= |acts|
    ensures LeftClean(run[k])
  {
    if k == 0 {
    } else {
      NothingIsLeftBehind(c, run, acts, k - 1);
      RunInv(c, run, acts, k - 1);
      StepLeavesClean(c, run[k - 1], acts[k - 1]);
    }
  }

  // Why the active side drains an echo while it is still sending

  /** The steps of an active side that would take nothing back before it has finished sending. */
  ghost predicate LazyEnabled(c: Session, s: State, a: Action) {
    Enabled(c, s, a) && (a.CopyRead? || a.CopyEnd? ==> s.Up().finished)
  }

  ghost predicate IsLazyRun(c: Session, run: seq<State>, acts: seq<Action>)
    requires c.Valid()
  {
    IsRun(c, run, acts) && forall i :: 0 <= i < |acts| ==> LazyEnabled(c, run[i], acts[i])
  }

  /** The bytes that find room between the two halves of the active side. */
  function Room(c: Session): nat { c.upWindow + c.copyBuffer + c.downWindow }

  /** No echo has been finished; the first is under way at most, with nothing taken back. */
  ghost predicate BeforeEcho(c: Session, s: State)
    requires c.Valid()
  {
    && Inv(c, s) && s.stream <= 2
    && (s.stream == 2 ==> s.active.Running? && s.served == 2 && s.active.got == [] && !s.Up().finished)
  }

  lemma NoRoomToFinish(c: Session, s: State)
    requires c.Valid() && |c.data| > Room(c) && BeforeEcho(c, s) && s.stream == 2
    ensures s.active.spawned ==> s.active.data != []
  {
    var buf, request, data := s.Up().buf, s.active.request, s.active.data;
    match s.passive
    case Accepting => assert |[] + buf + request + data| == REQUEST_MAX_SIZE + |c.data|;
    case ReadingRequest(acc) => assert |acc + buf + request + data| == REQUEST_MAX_SIZE + |c.data|;
    case Copying(held, _, _) => assert |s.active.got + s.Down().buf + held + buf + data| == |c.data|;
  }

  lemma LazyStepBeforeEcho(c: Session, s: State, a: Action)
    requires c.Valid() && c.iterations > 0 && |c.data| > Room(c)
    requires BeforeEcho(c, s) && LazyEnabled(c, s, a)
    ensures BeforeEcho(c, Step(c, s, a))
  {
    StepInv(c, s, a);
    if a.Join? {
      JoinInv(c, s);
    } else {
      LocalStepKeepsStream(c, s, a);
    }
    if s.stream == 2 { NoRoomToFinish(c, s); }
  }

  lemma {:induction false} LazyRunBeforeEcho(c: Session, run: seq<State>, acts: seq<Action>, k: nat)
    requires c.Valid() && c.iterations > 0 && |c.data| > Room(c) && IsLazyRun(c, run, acts) && k <= |acts|
    ensures BeforeEcho(c, run[k]) && !Final(run[k])
  {
    if k == 0 {
      InitInv(c);
    } else {
      LazyRunBeforeEcho(c, run, acts, k - 1);
      LazyStepBeforeEcho(c, run[k - 1], acts[k - 1]);
    }
  }

  /** No room is wasted: the copy buffer holds more than a byte only while the way down is full. */
  ghost predicate Packed(c: Session, s: State) {
    s.active.Running? && !s.Up().finished ==>
      && s.active.got == []
      && (s.passive.Copying? ==>
            && |s.passive.held| + s.passive.room == c.copyBuffer
            && (|s.passive.held| > 1 ==> |s.Down().buf| == c.downWindow))
  }

  lemma FinishedStaysPacked(c: Session, s: State, a: Action)
    requires c.Valid() && Inv(c, s) && Enabled(c, s, a) && s.active.Running? && s.Up().finished
    ensures Packed(c, Step(c, s, a))
  {
    if a.Join? { JoinInv(c, s); }
  }

  /** One byte at a time, and as far down as it gets. */
  lemma LazyEchoMove(c: Session, s: State) returns (a: Action)
    requires c.Valid() && Inv(c, s) && Packed(c, s) && |c.data| <= Room(c)
    requires s.active.Running? && s.active.spawned && !s.Up().finished && s.passive.Copying? && s.active.data != []
    ensures LazyEnabled(c, s, a) && Packed(c, Step(c, s, a))
  {
    if s.passive.held != [] && |s.Down().buf| < c.downWindow { return EchoWrite(1); }
    if s.Up().buf != [] && s.passive.room > 0 { return EchoRead(1); }
    assert |s.active.got + s.Down().buf + s.passive.held + s.Up().buf + s.active.data| == |c.data|;
    return WriteData(1);
  }

  lemma LazyMove(c: Session, s: State) returns (a: Action)
    requires c.Valid() && Inv(c, s) && Packed(c, s) && !Final(s)
    requires c.iterations == 0 || |c.data| <= Room(c)
    ensures LazyEnabled(c, s, a) && Packed(c, Step(c, s, a))
  {
    if !s.active.Running? {
      a := SomeStepEnabled(c, s);
    } else if s.Up().finished {
      a := SomeStepEnabled(c, s);
      FinishedStaysPacked(c, s, a);
    } else if s.passive.ReadingRequest? || (s.passive.Accepting? && s.served == s.stream) {
      a := LazyRequestMove(c, s);
    } else if !s.active.spawned {
      return Spawn;
    } else if s.active.data == [] {
      return Finish;
    } else if s.passive.Copying? {
      a := LazyEchoMove(c, s);
    } else {
      return if s.Up().buf == [] then WriteData(1) else SinkRead(1);
    }
  }

  lemma LazyRequestMove(c: Session, s: State) returns (a: Action)
    requires c.Valid() && Inv(c, s) && Packed(c, s) && s.active.Running? && !s.Up().finished
    requires s.passive.ReadingRequest? || (s.passive.Accepting? && s.served == s.stream)
    ensures LazyEnabled(c, s, a) && Packed(c, Step(c, s, a))
  {
    a := RequestStageMoves(c, s);
    if a.RequestDecode? { DecodeResult(c, s); }
  }

  lemma LazyExtend(c: Session, run: seq<State>, acts: seq<Action>, a: Action)
    returns (run': seq<State>, acts': seq<Action>)
    requires c.Valid() && IsLazyRun(c, run, acts) && LazyEnabled(c, run[|acts|], a)
    ensures IsLazyRun(c, run', acts') && run'[|acts'|] == Step(c, run[|acts|], a)
  {
    run', acts' := run + [Step(c, run[|acts|], a)], acts + [a];
  }

  lemma {:induction false} LazyEnds(c: Session, run: seq<State>, acts: seq<Action>)
    returns (run': seq<State>, acts': seq<Action>)
    requires c.Valid() && IsLazyRun(c, run, acts) && Packed(c, run[|acts|])
    requires c.iterations == 0 || |c.data| <= Room(c)
    ensures IsLazyRun(c, run', acts') && Final(run'[|acts'|])
    decreases Measure(c, run[|acts|])
  {
    var s := run[|acts|];
    if Final(s) {
      run', acts' := run, acts;
    } else {
      RunInv(c, run, acts, |acts|);
      var a := LazyMove(c, s);
      MeasureDecreases(c, s, a);
      run', acts' := LazyExtend(c, run, acts, a);
      run', acts' := LazyEnds(c, run', acts');
    }
  }

  /**
    An active side that drained an echo only after sending could end a session exactly when
    the data found room in the two windows and the peer's copy buffer; with more data no
    schedule whatever would end it.
  */
  lemma LazySessionEndsIff(c: Session)
    requires c.Valid()
    ensures (exists run, acts :: IsLazyRun(c, run, acts) && Final(run[|acts|]))
            <==> c.iterations == 0 || |c.data| <= Room(c)
  {
    if c.iterations == 0 || |c.data| <= Room(c) {
      InitInv(c);
      var run, acts := LazyEnds(c, [Init(c)], []);
    } else {
      forall run, acts | IsLazyRun(c, run, acts) ensures !Final(run[|acts|]) {
        LazyRunBeforeEcho(c, run, acts, |acts|);
      }
    }
  }
}
