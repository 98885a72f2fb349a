/**
  The whole throughput test: all parallel streams at once, in any interleaving, sharing the
  flow control windows of one connection as well as having their own.
*/
module ThroughputTest {
  import opened Postcard
  import opened Chunking
  import opened ThroughputStream

  datatype Test = Test(
    dataSize: U64, streams: nat, chunk: U64,
    upWindow: nat, downWindow: nat, connectionUp: nat, connectionDown: nat)
  {
    ghost predicate Valid() {
      streams > 0 && upWindow > 0 && downWindow > 0 && connectionUp > 0 && connectionDown > 0
    }

    function Stream(i: nat): Config
      requires streams > 0 && i < streams
    {
      SharesPartition(dataSize, streams);
      Config(Shares(dataSize, streams)[i], chunk, upWindow, downWindow)
    }
  }

  type States = seq<State>
  type StreamMove = (nat, Action)

  function UpBytes(ss: States): (s: seq<nat>)
    ensures |s| == |ss|
  {
    seq(|ss|, i requires 0 <= i < |ss| => |ss[i].up.buf|)
  }

  function DownBytes(ss: States): (s: seq<nat>)
    ensures |s| == |ss|
  {
    seq(|ss|, i requires 0 <= i < |ss| => |ss[i].down.buf|)
  }

  /** What a window lets through beyond the bytes in flight. */
  function Credit(window: nat, inFlight: nat): nat {
    if inFlight <= window then window - inFlight else 0
  }

  function UpCredit(t: Test, ss: States): nat { Credit(t.connectionUp, Sum(UpBytes(ss))) }

  function DownCredit(t: Test, ss: States): nat { Credit(t.connectionDown, Sum(DownBytes(ss))) }

  function InitAll(t: Test): (ss: States)
    requires t.streams > 0
    ensures |ss| == t.streams
  {
    seq(t.streams, i requires 0 <= i < t.streams => Init(t.Stream(i)))
  }

  ghost predicate Can(t: Test, ss: States, m: StreamMove)
    requires t.streams > 0
  {
    && m.0 < |ss| && m.0 < t.streams
    && Enabled(t.Stream(m.0), ss[m.0], m.1, UpCredit(t, ss), DownCredit(t, ss))
  }

  /** A step that no transport may hold back for ever. */
  ghost predicate Must(t: Test, ss: States, m: StreamMove)
    requires t.streams > 0
  {
    Can(t, ss, m) && Guaranteed(ss[m.0], m.1)
  }

  ghost function Next(t: Test, ss: States, m: StreamMove): (ss': States)
    requires t.streams > 0 && Can(t, ss, m)
    ensures |ss'| == |ss|
  {
    ss[m.0 := Step(t.Stream(m.0), ss[m.0], m.1, UpCredit(t, ss), DownCredit(t, ss))]
  }

  ghost predicate InvAll(t: Test, ss: States)
    requires t.streams > 0
  {
    && |ss| == t.streams
    && (forall i :: 0 <= i < |ss| ==> Inv(t.Stream(i), ss[i]))
    && Sum(UpBytes(ss)) <= t.connectionUp && Sum(DownBytes(ss)) <= t.connectionDown
  }

  ghost predicate AllFinal(ss: States) {
    forall i :: 0 <= i < |ss| ==> Final(ss[i])
  }

  ghost function Measures(t: Test, ss: States): (s: seq<nat>)
    requires t.streams > 0 && |ss| == t.streams
    ensures |s| == |ss|
  {
    seq(|ss|, i requires 0 <= i < |ss| => Measure(t.Stream(i), ss[i]))
  }

  // Sums over streams

  lemma {:induction false} SumUpdate(s: seq<nat>, i: nat, v: nat)
    requires i < |s|
    ensures Sum(s[i := v]) == Sum(s) - s[i] + v
  {
    if i == 0 {
      assert s[0 := v][1..] == s[1..];
    } else {
      SumUpdate(s[1..], i - 1, v);
      assert s[i := v][1..] == s[1..][i - 1 := v];
    }
  }

  lemma {:induction false} SumZeroIff(s: seq<nat>)
    ensures Sum(s) == 0 <==> forall i :: 0 <= i < |s| ==> s[i] == 0
  {
    if s == [] {
    } else {
      SumZeroIff(s[1..]);
      assert forall i :: 0 < i < |s| ==> s[i] == s[1..][i - 1];
      assert forall i :: 0 <= i < |s[1..]| ==> s[1..][i] == s[i + 1];
    }
  }

  lemma InFlightAfter(t: Test, ss: States, i: nat, s: State)
    requires i < |ss|
    ensures Sum(UpBytes(ss[i := s])) == Sum(UpBytes(ss)) - |ss[i].up.buf| + |s.up.buf|
    ensures Sum(DownBytes(ss[i := s])) == Sum(DownBytes(ss)) - |ss[i].down.buf| + |s.down.buf|
  {
    assert UpBytes(ss[i := s]) == UpBytes(ss)[i := |s.up.buf|];
    assert DownBytes(ss[i := s]) == DownBytes(ss)[i := |s.down.buf|];
    SumUpdate(UpBytes(ss), i, |s.up.buf|);
    SumUpdate(DownBytes(ss), i, |s.down.buf|);
  }

  // The invariant, the measure and progress

  lemma InitAllInv(t: Test)
    requires t.streams > 0
    ensures InvAll(t, InitAll(t))
  {
    SumZeroIff(UpBytes(InitAll(t)));
    SumZeroIff(DownBytes(InitAll(t)));
    forall i | 0 <= i < t.streams ensures Inv(t.Stream(i), InitAll(t)[i]) { InitInv(t.Stream(i)); }
  }

  lemma WriteWithinCredit(c: Config, s: State, a: Action, u: nat, d: nat)
    requires Enabled(c, s, a, u, d)
    ensures var s' := Step(c, s, a, u, d);
            && (|s'.up.buf| <= |s.up.buf| || |s'.up.buf| <= |s.up.buf| + u)
            && (|s'.down.buf| <= |s.down.buf| || |s'.down.buf| <= |s.down.buf| + d)
  {
  }

  lemma NextInv(t: Test, ss: States, m: StreamMove)
    requires t.streams > 0 && InvAll(t, ss) && Can(t, ss, m)
    ensures InvAll(t, Next(t, ss, m))
  {
    var (i, a) := m;
    var s' := Next(t, ss, m)[i];
    StepInv(t.Stream(i), ss[i], a, UpCredit(t, ss), DownCredit(t, ss));
    WriteWithinCredit(t.Stream(i), ss[i], a, UpCredit(t, ss), DownCredit(t, ss));
    InFlightAfter(t, ss, i, s');
  }

  lemma NextMeasure(t: Test, ss: States, m: StreamMove)
    requires t.streams > 0 && InvAll(t, ss) && Can(t, ss, m)
    ensures Sum(Measures(t, Next(t, ss, m))) < Sum(Measures(t, ss))
  {
    var (i, a) := m;
    var s' := Next(t, ss, m)[i];
    MeasureDecreases(t.Stream(i), ss[i], a, UpCredit(t, ss), DownCredit(t, ss));
    SumUpdate(Measures(t, ss), i, Measure(t.Stream(i), s'));
    assert Measures(t, Next(t, ss, m)) == Measures(t, ss)[i := Measure(t.Stream(i), s')];
  }

  lemma MoveWithCredit(t: Test, ss: States, i: nat, a: Action, u: nat, d: nat)
    requires t.streams > 0 && i < |ss| && i < t.streams
    requires Enabled(t.Stream(i), ss[i], a, u, d)
    requires u <= UpCredit(t, ss) && d <= DownCredit(t, ss)
    requires Guaranteed(ss[i], a)
    ensures Must(t, ss, (i, a))
  {
    CreditMonotone(t.Stream(i), ss[i], a, u, d, UpCredit(t, ss), DownCredit(t, ss));
  }

  lemma NothingInFlight(t: Test, ss: States)
    requires t.Valid() && InvAll(t, ss)
    requires forall i :: 0 <= i < |ss| ==> !NextMove(ss[i]).Local?
    ensures Sum(UpBytes(ss)) == 0
    ensures (forall i :: 0 <= i < |ss| ==> !NextMove(ss[i]).WantsUp?) ==> Sum(DownBytes(ss)) == 0
  {
    forall i | 0 <= i < |ss|
      ensures |ss[i].up.buf| == 0 && (NextMove(ss[i]).WantsUp? || |ss[i].down.buf| == 0)
    {
      NextMoveIsPossible(t.Stream(i), ss[i]);
    }
    SumZeroIff(UpBytes(ss));
    if forall i :: 0 <= i < |ss| ==> !NextMove(ss[i]).WantsUp? {
      SumZeroIff(DownBytes(ss));
    }
  }

  lemma UnblockedWrite(t: Test, ss: States) returns (m: StreamMove)
    requires t.Valid() && InvAll(t, ss) && !AllFinal(ss)
    requires forall i :: 0 <= i < |ss| ==> !NextMove(ss[i]).Local?
    ensures Must(t, ss, m)
  {
    NothingInFlight(t, ss);
    if i: nat :| i < |ss| && NextMove(ss[i]).WantsUp? {
      NextMoveIsPossible(t.Stream(i), ss[i]);
      MoveWithCredit(t, ss, i, ClientWrite(1), 1, 0);
      return (i, ClientWrite(1));
    }
    var i: nat :| i < |ss| && !Final(ss[i]);
    NextMoveIsPossible(t.Stream(i), ss[i]);
    MoveWithCredit(t, ss, i, SendWrite(1), 0, 1);
    return (i, SendWrite(1));
  }

  /**
    No deadlock: in every reachable state in which some stream is not over, some stream can
    move, although a write may be blocked by bytes that belong to other streams.
  */
  lemma SomeStreamMoves(t: Test, ss: States) returns (m: StreamMove)
    requires t.Valid() && InvAll(t, ss) && !AllFinal(ss)
    ensures Must(t, ss, m)
  {
    if i: nat :| i < |ss| && NextMove(ss[i]).Local? {
      NextMoveIsPossible(t.Stream(i), ss[i]);
      MoveWithCredit(t, ss, i, NextMove(ss[i]).a, 0, 0);
      return (i, NextMove(ss[i]).a);
    }
    m := UnblockedWrite(t, ss);
  }

  // The connection, which the client closes as soon as its own streams are done

  /**
    `cut` are the streams whose server tasks have failed because the client closed the
    connection before they had returned.
  */
  datatype World = World(streams: States, closed: bool, cut: set<nat>)

  datatype Event = On(move: StreamMove) | Close | Cut(i: nat)

  ghost predicate ClientsDone(ss: States) {
    forall i :: 0 <= i < |ss| ==> ss[i].client.Done?
  }

  ghost predicate CanHappen(t: Test, w: World, e: Event)
    requires t.streams > 0
  {
    match e
    case On(m) => Can(t, w.streams, m) && m.0 !in w.cut
    case Close => ClientsDone(w.streams) && !w.closed
    case Cut(i) => w.closed && i < |w.streams| && i !in w.cut && !Final(w.streams[i])
  }

  /** Once the connection is closed, server tasks that cannot go on must fail; until then none do. */
  ghost predicate Due(t: Test, w: World, e: Event)
    requires t.streams > 0
  {
    CanHappen(t, w, e) && (e.On? ==> Must(t, w.streams, e.move))
  }

  ghost function After(t: Test, w: World, e: Event): World
    requires t.streams > 0 && CanHappen(t, w, e)
  {
    match e
    case On(m) => w.(streams := Next(t, w.streams, m))
    case Close => w.(closed := true)
    case Cut(i) => w.(cut := w.cut + {i})
  }

  ghost predicate WorldInv(t: Test, w: World)
    requires t.streams > 0
  {
    && InvAll(t, w.streams)
    && (w.closed ==> ClientsDone(w.streams))
    && (w.cut != {} ==> w.closed)
    && (forall i :: i in w.cut ==> i < t.streams && !Final(w.streams[i]))
  }

  ghost function WorldMeasure(t: Test, w: World): nat
    requires t.streams > 0 && WorldInv(t, w)
  {
    CutBelow(w.cut, t.streams);
    Sum(Measures(t, w.streams)) + (if w.closed then 0 else 1) + (t.streams - |w.cut|)
  }

  lemma {:induction false} CutBelow(cut: set<nat>, n: nat)
    requires forall i :: i in cut ==> i < n
    ensures |cut| <= n
  {
    if n == 0 {
      assert cut == {};
    } else {
      CutBelow(cut - {n - 1}, n - 1);
    }
  }

  lemma ClientStaysDone(t: Test, ss: States, m: StreamMove)
    requires t.streams > 0 && InvAll(t, ss) && Can(t, ss, m) && ClientsDone(ss)
    ensures ClientsDone(Next(t, ss, m)) && Received(Next(t, ss, m)[m.0]) == Received(ss[m.0])
  {
  }

  lemma WorldStepInv(t: Test, w: World, e: Event)
    requires t.streams > 0 && WorldInv(t, w) && CanHappen(t, w, e)
    ensures WorldInv(t, After(t, w, e))
    ensures WorldMeasure(t, After(t, w, e)) < WorldMeasure(t, w)
  {
    match e
    case On(m) =>
      NextInv(t, w.streams, m);
      NextMeasure(t, w.streams, m);
      if w.closed { ClientStaysDone(t, w.streams, m); }
    case Close =>
    case Cut(i) => CutBelow(w.cut + {i}, t.streams);
  }

  /** Everything that can still happen has happened. */
  ghost predicate Over(w: World) {
    w.closed && forall i :: 0 <= i < |w.streams| ==> Final(w.streams[i]) || i in w.cut
  }

  lemma SomethingIsDue(t: Test, w: World) returns (e: Event)
    requires t.Valid() && WorldInv(t, w) && !Over(w)
    ensures Due(t, w, e)
  {
    if w.closed {
      var i: nat :| i < |w.streams| && !Final(w.streams[i]) && i !in w.cut;
      return Cut(i);
    }
    if ClientsDone(w.streams) {
      return Close;
    }
    var m := SomeStreamMoves(t, w.streams);
    return On(m);
  }

  // Whole runs

  ghost function Start(t: Test): World
    requires t.streams > 0
  {
    World(InitAll(t), false, {})
  }

  ghost predicate IsRun(t: Test, run: seq<World>, events: seq<Event>)
    requires t.streams > 0
  {
    && |run| == |events| + 1 && run[0] == Start(t)
    && forall i :: 0 <= i < |events| ==> CanHappen(t, run[i], events[i]) && run[i + 1] == After(t, run[i], events[i])
  }

  /** In every state of every run, each direction of each stream conserves its bytes. */
  lemma {:induction false} EveryStateConserves(t: Test, run: seq<World>, events: seq<Event>, k: nat)
    requires t.streams > 0 && IsRun(t, run, events) && k <= |events|
    ensures WorldInv(t, run[0]) && WorldInv(t, run[k])
    ensures WorldMeasure(t, run[k]) + k <= WorldMeasure(t, run[0])
  {
    InitAllInv(t);
    if k == 0 {
    } else {
      EveryStateConserves(t, run, events, k - 1);
      WorldStepInv(t, run[k - 1], events[k - 1]);
    }
  }

  function ClientBytes(ss: States): (s: seq<nat>) {
    seq(|ss|, i requires 0 <= i < |ss| => |Received(ss[i])|)
  }

  function DrainedBytes(s: State): nat {
    if s.server.Serving? then |s.server.drain.got| else 0
  }

  function ServerBytes(ss: States): (s: seq<nat>) {
    seq(|ss|, i requires 0 <= i < |ss| => DrainedBytes(ss[i]))
  }

  lemma {:induction false} SumOfSums(a: seq<nat>, b: seq<nat>, c: seq<nat>)
    requires |a| == |b| == |c| && forall i :: 0 <= i < |a| ==> a[i] + b[i] == c[i]
    ensures Sum(a) + Sum(b) == Sum(c)
  {
    if a == [] {
    } else {
      SumOfSums(a[1..], b[1..], c[1..]);
    }
  }

  /** What a stream has moved when its client is done, whatever its server is still doing. */
  lemma DoneStream(c: Config, s: State)
    requires Inv(c, s) && s.client.Done?
    ensures |Received(s)| == c.size
    ensures DrainedBytes(s) + |s.up.buf| == c.size
  {
    PayloadIsFill(c.size, c.chunk);
    assert |s.server.drain.got + s.up.buf + Unsent(s)| == c.size;
    assert |Received(s) + s.down.buf + Unanswered(s)| == c.size;
  }

  lemma EachDoneStream(t: Test, ss: States)
    requires t.streams > 0 && InvAll(t, ss) && ClientsDone(ss)
    ensures ClientBytes(ss) == Shares(t.dataSize, t.streams)
    ensures forall i :: 0 <= i < |ss| ==> ServerBytes(ss)[i] + UpBytes(ss)[i] == Shares(t.dataSize, t.streams)[i]
  {
    forall i | 0 <= i < |ss|
      ensures ClientBytes(ss)[i] == Shares(t.dataSize, t.streams)[i]
      ensures ServerBytes(ss)[i] + UpBytes(ss)[i] == Shares(t.dataSize, t.streams)[i]
    {
      DoneStream(t.Stream(i), ss[i]);
    }
  }

  lemma NothingOnTheWayIff(ss: States)
    ensures Sum(UpBytes(ss)) == 0 <==> forall i :: 0 <= i < |ss| ==> ss[i].up.buf == []
  {
    SumZeroIff(UpBytes(ss));
    assert forall i :: 0 <= i < |ss| ==> UpBytes(ss)[i] == |ss[i].up.buf|;
  }

  /**
    The state in which the client reports: as soon as all its streams are done, it has received
    the requested number of bytes, and the servers have received all but what is still on the way.
  */
  lemma ClientsDoneTotals(t: Test, run: seq<World>, events: seq<Event>, k: nat)
    requires t.streams > 0 && IsRun(t, run, events) && k <= |events| && ClientsDone(run[k].streams)
    ensures var ss := run[k].streams;
            && Sum(ClientBytes(ss)) == t.dataSize
            && Sum(ServerBytes(ss)) + Sum(UpBytes(ss)) == t.dataSize
            && (Sum(ServerBytes(ss)) == t.dataSize <==> forall i :: 0 <= i < |ss| ==> ss[i].up.buf == [])
  {
    EveryStateConserves(t, run, events, k);
    TotalsOfDone(t, run[k].streams);
    NothingOnTheWayIff(run[k].streams);
  }

  lemma TotalsOfDone(t: Test, ss: States)
    requires t.streams > 0 && InvAll(t, ss) && ClientsDone(ss)
    ensures Sum(ClientBytes(ss)) == t.dataSize
    ensures Sum(ServerBytes(ss)) + Sum(UpBytes(ss)) == t.dataSize
  {
    EachDoneStream(t, ss);
    SharesPartition(t.dataSize, t.streams);
    SumOfSums(ServerBytes(ss), UpBytes(ss), Shares(t.dataSize, t.streams));
  }

  /**
    Every schedule is finite. One that need not be continued has ended with every client
    stream done and the connection closed, exactly the requested number of bytes received by
    the client, and every server task either returned or failed by the close.
  */
  lemma EveryScheduleSucceeds(t: Test, run: seq<World>, events: seq<Event>)
    requires t.Valid() && IsRun(t, run, events)
    ensures |events| <= Sum(Measures(t, InitAll(t))) + 1 + t.streams
    ensures var last := run[|events|];
            (forall e :: !Due(t, last, e)) ==>
              Over(last) && ClientsDone(last.streams) && Sum(ClientBytes(last.streams)) == t.dataSize
  {
    EveryStateConserves(t, run, events, |events|);
    var last := run[|events|];
    if forall e :: !Due(t, last, e) {
      if !Over(last) {
        var e := SomethingIsDue(t, last);
        assert false;
      }
      ClientsDoneTotals(t, run, events, |events|);
    }
  }

  // When the servers have received everything too

  /** A transport on which waiting for `stopped` ends only when the peer has read everything. */
  ghost predicate IsStrictRun(t: Test, run: seq<World>, events: seq<Event>)
    requires t.streams > 0
  {
    && IsRun(t, run, events)
    && forall i :: 0 <= i < |events| && events[i].On? ==> Guaranteed(run[i].streams[events[i].move.0], events[i].move.1)
  }

  /** A client that has stopped waiting has been read to the end, and so has a server. */
  ghost predicate ReadOut(s: State) {
    && (s.client.Downloading? || s.client.Done? ==> s.server.Serving? && s.server.drain.Drained?)
    && (s.server.Serving? && s.server.send.Sent? ==> s.client.Done?)
  }

  lemma StepReadOut(c: Config, s: State, a: Action, u: nat, d: nat)
    requires Enabled(c, s, a, u, d) && Guaranteed(s, a) && ReadOut(s)
    ensures ReadOut(Step(c, s, a, u, d))
  {
  }

  lemma {:induction false} StrictRunsReadOut(t: Test, run: seq<World>, events: seq<Event>, k: nat)
    requires t.streams > 0 && IsStrictRun(t, run, events) && k <= |events|
    ensures forall i :: 0 <= i < |run[k].streams| ==> ReadOut(run[k].streams[i])
  {
    if k == 0 {
    } else {
      StrictRunsReadOut(t, run, events, k - 1);
      var ss, e := run[k - 1].streams, events[k - 1];
      if e.On? {
        StepReadOut(t.Stream(e.move.0), ss[e.move.0], e.move.1, UpCredit(t, ss), DownCredit(t, ss));
      }
    }
  }

  /** On such a transport no server returns before its client is done. */
  lemma StrictServersWait(t: Test, run: seq<World>, events: seq<Event>, k: nat, i: nat)
    requires t.streams > 0 && IsStrictRun(t, run, events) && k <= |events| && i < |run[k].streams|
    requires run[k].streams[i].server.Serving? && run[k].streams[i].server.send.Sent?
    ensures run[k].streams[i].client.Done?
  {
    StrictRunsReadOut(t, run, events, k);
  }

  /** On such a transport the servers too have received everything when the client reports. */
  lemma StrictTransportServesAll(t: Test, run: seq<World>, events: seq<Event>, k: nat)
    requires t.streams > 0 && IsStrictRun(t, run, events) && k <= |events| && ClientsDone(run[k].streams)
    ensures Sum(ServerBytes(run[k].streams)) == t.dataSize
  {
    StrictRunsReadOut(t, run, events, k);
    EveryStateConserves(t, run, events, k);
    ClientsDoneTotals(t, run, events, k);
    forall i | 0 <= i < |run[k].streams| ensures run[k].streams[i].up.buf == [] {
      assert ReadOut(run[k].streams[i]) && Inv(t.Stream(i), run[k].streams[i]);
    }
  }
}
