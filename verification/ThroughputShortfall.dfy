/**
  What the servers of a throughput test may not have received when the client reports. On a
  transport that acknowledges what its application has not read, the last bytes of a stream may
  still be unread when the client is done, and are lost when it closes the connection.
*/
module ThroughputShortfall {
  import opened Chunking
  import opened ThroughputStream
  import opened ThroughputTest

  // One stream whose server is slow to drain

  /** So far the server has drained at most `cap` bytes, and has not seen the end. */
  ghost predicate HeldBack(c: Config, s: State, cap: nat) {
    Inv(c, s) && (s.server.Serving? ==> s.server.drain.Draining? && |s.server.drain.got| <= cap)
  }

  /** The client is done, and the server has drained exactly `cap` bytes. */
  ghost predicate Rested(s: State, cap: nat) {
    s.client.Done? && s.server.Serving? && |s.server.drain.got| == cap
  }

  /**
    The client of a stream can always go on although its server leaves the last `left` bytes
    undrained, if only these fit the window.
  */
  lemma HeldMove(c: Config, s: State, left: nat) returns (a: Action, u: nat, d: nat)
    requires c.Valid() && left <= c.size && left <= c.upWindow
    requires HeldBack(c, s, c.size - left) && !Rested(s, c.size - left)
    ensures Enabled(c, s, a, u, d) && HeldBack(c, Step(c, s, a, u, d), c.size - left)
    ensures u == 0 || (u == 1 && |s.up.buf| < Max(1, left))
    ensures d == 0 || (d == 1 && s.down.buf == [])
  {
    if s.server.ReadingHeader? {
      a, u, d := HeldHeaderMove(c, s);
    } else {
      a, u, d := HeldServingMove(c, s, left);
    }
    HeldStays(c, s, a, u, d, c.size - left);
  }

  lemma HeldStays(c: Config, s: State, a: Action, u: nat, d: nat, cap: nat)
    requires HeldBack(c, s, cap) && Enabled(c, s, a, u, d) && !a.DrainEnd?
    requires a.DrainRead? ==> |s.server.drain.got| + a.n <= cap
    ensures HeldBack(c, Step(c, s, a, u, d), cap)
  {
    StepInv(c, s, a, u, d);
    if a.HeaderParse? { HeaderParseResult(c, s, u, d); }
  }

  lemma HeldHeaderMove(c: Config, s: State) returns (a: Action, u: nat, d: nat)
    requires c.Valid() && Inv(c, s) && s.server.ReadingHeader?
    ensures Enabled(c, s, a, u, d) && (a.HeaderRead? || a.HeaderParse? || a.ClientWrite?)
    ensures d == 0 && (u == 0 || (u == 1 && s.up.buf == []))
  {
    NextMoveIsPossible(c, s);
    if NextMove(s).Local? { return NextMove(s).a, 0, 0; }
    return ClientWrite(1), 1, 0;
  }

  lemma HeldServingMove(c: Config, s: State, left: nat) returns (a: Action, u: nat, d: nat)
    requires c.Valid() && left <= c.size && left <= c.upWindow && s.server.Serving?
    requires HeldBack(c, s, c.size - left) && !Rested(s, c.size - left)
    ensures Enabled(c, s, a, u, d) && !a.DrainEnd?
    ensures a.DrainRead? ==> a.n == 1 && |s.server.drain.got| < c.size - left
    ensures u == 0 || (u == 1 && |s.up.buf| < Max(1, left))
    ensures d == 0 || (d == 1 && s.down.buf == [])
  {
    PayloadIsFill(c.size, c.chunk);
    assert |s.server.drain.got + s.up.buf + Unsent(s)| == c.size;
    if s.up.buf != [] && |s.server.drain.got| < c.size - left { return DrainRead(1), 0, 0; }
    match s.client
    case Uploading(outbox) =>
      if outbox == [] { return ClientFinish, 0, 0; }
      return ClientWrite(1), 1, 0;
    case AwaitingStopped => return ClientStopped, 0, 0;
    case Downloading(_) =>
      if s.down.buf != [] { return ClientRead(1), 0, 0; }
      if s.down.finished { return ClientEnd, 0, 0; }
      if Unanswered(s) == [] { return SendFinish, 0, 0; }
      return SendWrite(1), 0, 1;
  }

  // One stream of a test, run until its client is done

  lemma Extend(t: Test, run: seq<World>, events: seq<Event>, e: Event)
    returns (run': seq<World>, events': seq<Event>)
    requires t.streams > 0 && IsRun(t, run, events) && CanHappen(t, run[|events|], e)
    ensures IsRun(t, run', events') && run'[|events'|] == After(t, run[|events|], e)
  {
    run', events' := run + [After(t, run[|events|], e)], events + [e];
  }

  /** Beside what the other streams hold, the connection still lets stream `i` leave its bytes. */
  ghost predicate HasRoom(t: Test, ss: States, i: nat, left: nat)
    requires t.streams > 0
  {
    && i < |ss| && |ss| == t.streams
    && left <= t.Stream(i).size && left <= t.upWindow
    && Sum(UpBytes(ss)) - |ss[i].up.buf| + Max(1, left) <= t.connectionUp
    && Sum(DownBytes(ss)) == |ss[i].down.buf|
  }

  lemma RoomStays(t: Test, ss: States, i: nat, left: nat, s: State)
    requires t.streams > 0 && HasRoom(t, ss, i, left)
    ensures HasRoom(t, ss[i := s], i, left)
  {
    InFlightAfter(t, ss, i, s);
  }

  /** A move within the room there is. */
  lemma MoveInRoom(t: Test, ss: States, i: nat, left: nat, a: Action, u: nat, d: nat)
    requires t.Valid() && HasRoom(t, ss, i, left) && Enabled(t.Stream(i), ss[i], a, u, d)
    requires u == 0 || (u == 1 && |ss[i].up.buf| < Max(1, left))
    requires d == 0 || (d == 1 && ss[i].down.buf == [])
    ensures Can(t, ss, (i, a))
    ensures Next(t, ss, (i, a)) == ss[i := Step(t.Stream(i), ss[i], a, u, d)]
  {
    CreditMonotone(t.Stream(i), ss[i], a, u, d, UpCredit(t, ss), DownCredit(t, ss));
  }

  lemma StepStream(t: Test, run: seq<World>, events: seq<Event>, i: nat, left: nat)
    returns (run': seq<World>, events': seq<Event>, s: State)
    requires t.Valid() && IsRun(t, run, events) && run[|events|].cut == {}
    requires HasRoom(t, run[|events|].streams, i, left)
    requires HeldBack(t.Stream(i), run[|events|].streams[i], t.Stream(i).size - left)
    requires !Rested(run[|events|].streams[i], t.Stream(i).size - left)
    ensures IsRun(t, run', events') && run'[|events'|] == run[|events|].(streams := run[|events|].streams[i := s])
    ensures HasRoom(t, run'[|events'|].streams, i, left) && HeldBack(t.Stream(i), s, t.Stream(i).size - left)
    ensures Measure(t.Stream(i), s) < Measure(t.Stream(i), run[|events|].streams[i])
  {
    var ss, c := run[|events|].streams, t.Stream(i);
    var a, u, d := HeldMove(c, ss[i], left);
    s := Step(c, ss[i], a, u, d);
    MoveInRoom(t, ss, i, left, a, u, d);
    MeasureDecreases(c, ss[i], a, u, d);
    RoomStays(t, ss, i, left, s);
    run', events' := Extend(t, run, events, On((i, a)));
  }

  lemma {:induction false} RunStream(t: Test, run: seq<World>, events: seq<Event>, i: nat, left: nat)
    returns (run': seq<World>, events': seq<Event>, s: State)
    requires t.Valid() && IsRun(t, run, events) && run[|events|].cut == {}
    requires HasRoom(t, run[|events|].streams, i, left)
    requires HeldBack(t.Stream(i), run[|events|].streams[i], t.Stream(i).size - left)
    ensures IsRun(t, run', events') && run'[|events'|] == run[|events|].(streams := run[|events|].streams[i := s])
    ensures HeldBack(t.Stream(i), s, t.Stream(i).size - left) && Rested(s, t.Stream(i).size - left)
    decreases Measure(t.Stream(i), run[|events|].streams[i])
  {
    var w := run[|events|];
    if Rested(w.streams[i], t.Stream(i).size - left) {
      run', events', s := run, events, w.streams[i];
      assert w.streams[i := s] == w.streams;
    } else {
      run', events', s := StepStream(t, run, events, i, left);
      run', events', s := RunStream(t, run', events', i, left);
    }
  }

  // All streams, one after the other

  /** The streams in `done` have left just these bytes unread, and the others have yet to start. */
  ghost predicate AtRest(t: Test, w: World, left: seq<nat>, done: set<nat>)
    requires t.streams > 0 && |left| == t.streams
  {
    && |w.streams| == t.streams && !w.closed && w.cut == {}
    && (forall i :: i in done ==> i < t.streams)
    && forall i :: 0 <= i < t.streams ==>
         if i in done then Left(t, w.streams[i], i, left[i]) else w.streams[i] == ThroughputStream.Init(t.Stream(i))
  }

  ghost predicate Left(t: Test, s: State, i: nat, left: nat)
    requires i < t.streams
  {
    && Inv(t.Stream(i), s) && s.client.Done? && s.server.Serving? && s.server.drain.Draining?
    && |s.up.buf| == left && s.down.buf == []
  }

  /** Such amounts fit the windows of the streams and of the connection. */
  ghost predicate Fits(t: Test, left: seq<nat>)
    requires t.streams > 0
  {
    && |left| == t.streams
    && (forall i :: 0 <= i < |left| ==> left[i] <= Shares(t.dataSize, t.streams)[i] && left[i] <= t.upWindow)
    && Sum(left) <= t.connectionUp
  }

  lemma {:induction false} SumAtMost(a: seq<nat>, b: seq<nat>)
    requires |a| == |b| && forall i :: 0 <= i < |a| ==> a[i] <= b[i]
    ensures Sum(a) <= Sum(b)
  {
    if a == [] {
    } else {
      SumAtMost(a[1..], b[1..]);
    }
  }

  /** Streams that leave nothing go first, so that the header of each finds room. */
  ghost predicate ZerosFirst(left: seq<nat>, done: set<nat>) {
    forall i, j :: i in done && i < |left| && left[i] > 0 && 0 <= j < |left| && left[j] == 0 ==> j in done
  }

  lemma RoomForNext(t: Test, w: World, left: seq<nat>, done: set<nat>, i: nat)
    requires t.Valid() && Fits(t, left) && AtRest(t, w, left, done) && ZerosFirst(left, done)
    requires i < t.streams && i !in done && ZerosFirst(left, done + {i})
    ensures HasRoom(t, w.streams, i, left[i])
  {
    var up, down := UpBytes(w.streams), DownBytes(w.streams);
    assert up[i] == 0;
    forall j | 0 <= j < |down| ensures down[j] == 0 { assert AtRest(t, w, left, done); }
    SumZeroIff(down);
    if left[i] == 0 {
      forall j | 0 <= j < |up| ensures up[j] == 0 { if j in done { assert left[j] == 0; } }
      SumZeroIff(up);
    } else {
      SumUpdate(up, i, left[i]);
      SumAtMost(up[i := left[i]], left);
    }
  }

  lemma RestOfNext(t: Test, w: World, left: seq<nat>, done: set<nat>, i: nat, s: State)
    requires t.Valid() && Fits(t, left) && AtRest(t, w, left, done) && i < t.streams
    requires HeldBack(t.Stream(i), s, t.Stream(i).size - left[i]) && Rested(s, t.Stream(i).size - left[i])
    ensures AtRest(t, w.(streams := w.streams[i := s]), left, done + {i})
  {
    DoneStream(t.Stream(i), s);
  }

  ghost predicate Every(n: nat, done: set<nat>) {
    forall i :: 0 <= i < n ==> i in done
  }

  lemma NextStream(left: seq<nat>, done: set<nat>, n: nat) returns (i: nat)
    requires n == |left| && ZerosFirst(left, done) && !Every(n, done) && forall j :: j in done ==> j < n
    ensures i < n && i !in done && ZerosFirst(left, done + {i}) && |done| < |done + {i}| <= n
  {
    if j: nat :| j < n && j !in done && left[j] == 0 {
      i := j;
    } else {
      i :| 0 <= i < n && i !in done;
    }
    CutBelow(done + {i}, n);
  }

  lemma LeaveOne(t: Test, left: seq<nat>, run: seq<World>, events: seq<Event>, done: set<nat>, i: nat)
    returns (run': seq<World>, events': seq<Event>)
    requires t.Valid() && Fits(t, left) && RestingRun(t, left, run, events, done) && ZerosFirst(left, done)
    requires i < t.streams && i !in done && ZerosFirst(left, done + {i})
    ensures RestingRun(t, left, run', events', done + {i})
  {
    var w := run[|events|];
    RoomForNext(t, w, left, done, i);
    assert HeldBack(t.Stream(i), w.streams[i], t.Stream(i).size - left[i]) by { InitInv(t.Stream(i)); }
    var s;
    run', events', s := RunStream(t, run, events, i, left[i]);
    RestOfNext(t, w, left, done, i, s);
  }

  /** A run that has come to rest on the streams in `done`. */
  ghost predicate RestingRun(t: Test, left: seq<nat>, run: seq<World>, events: seq<Event>, done: set<nat>)
    requires t.streams > 0
  {
    |left| == t.streams && IsRun(t, run, events) && AtRest(t, run[|events|], left, done)
  }

  lemma {:induction false} LeaveAll(t: Test, left: seq<nat>, run: seq<World>, events: seq<Event>, done: set<nat>)
    returns (run': seq<World>, events': seq<Event>, all: set<nat>)
    requires t.Valid() && Fits(t, left) && RestingRun(t, left, run, events, done) && ZerosFirst(left, done)
    ensures RestingRun(t, left, run', events', all) && Every(t.streams, all)
    decreases t.streams - |done|
  {
    if Every(t.streams, done) {
      run', events', all := run, events, done;
    } else {
      var i := NextStream(left, done, t.streams);
      run', events' := LeaveOne(t, left, run, events, done, i);
      run', events', all := LeaveAll(t, left, run', events', done + {i});
    }
  }

  // The close

  /** After the close every server task that is not done may fail at once. */
  lemma {:induction false} CutRest(t: Test, run: seq<World>, events: seq<Event>, n: nat)
    returns (run': seq<World>, events': seq<Event>)
    requires t.streams > 0 && IsRun(t, run, events) && n <= t.streams == |run[|events|].streams|
    requires run[|events|].closed && forall i :: 0 <= i < n ==> Final(run[|events|].streams[i]) || i in run[|events|].cut
    ensures IsRun(t, run', events') && Over(run'[|events'|]) && run'[|events'|].streams == run[|events|].streams
    decreases t.streams - n
  {
    if n == t.streams {
      run', events' := run, events;
    } else if Final(run[|events|].streams[n]) || n in run[|events|].cut {
      run', events' := CutRest(t, run, events, n + 1);
    } else {
      run', events' := Extend(t, run, events, Cut(n));
      run', events' := CutRest(t, run', events', n + 1);
    }
  }

  lemma LeaveAndClose(t: Test, left: seq<nat>) returns (run: seq<World>, events: seq<Event>)
    requires t.Valid() && Fits(t, left)
    ensures IsRun(t, run, events) && Over(run[|events|]) && UpBytes(run[|events|].streams) == left
  {
    var all;
    run, events := [Start(t)], [];
    run, events, all := LeaveAll(t, left, run, events, {});
    var ss := run[|events|].streams;
    forall i | 0 <= i < |ss| ensures Left(t, ss[i], i, left[i]) { assert i in all; }
    run, events := Extend(t, run, events, Close);
    run, events := CutRest(t, run, events, 0);
    assert UpBytes(ss) == left;
  }

  // What can be missed

  /** A state in which the client reports success, although the servers lack `m` bytes. */
  ghost predicate ReportsShort(t: Test, run: seq<World>, events: seq<Event>, k: nat, m: nat)
    requires t.streams > 0
  {
    && IsRun(t, run, events) && k <= |events| && ClientsDone(run[k].streams)
    && Sum(ServerBytes(run[k].streams)) + m == t.dataSize
  }

  /** A run at whose end the servers have lost `m` bytes for good. */
  ghost predicate EndsShort(t: Test, run: seq<World>, events: seq<Event>, m: nat)
    requires t.streams > 0
  {
    ReportsShort(t, run, events, |events|, m) && Over(run[|events|])
  }

  lemma OverIsDone(t: Test, run: seq<World>, events: seq<Event>)
    requires t.streams > 0 && IsRun(t, run, events) && Over(run[|events|])
    ensures ClientsDone(run[|events|].streams)
  {
    EveryStateConserves(t, run, events, |events|);
  }

  lemma LeavingIsPossible(t: Test, left: seq<nat>) returns (run: seq<World>, events: seq<Event>)
    requires t.Valid() && Fits(t, left)
    ensures EndsShort(t, run, events, Sum(left)) && UpBytes(run[|events|].streams) == left
  {
    run, events := LeaveAndClose(t, left);
    OverIsDone(t, run, events);
    ClientsDoneTotals(t, run, events, |events|);
  }

  lemma UnreadFits(t: Test, ss: States)
    requires t.streams > 0 && InvAll(t, ss) && ClientsDone(ss)
    ensures Fits(t, UpBytes(ss))
  {
    EachDoneStream(t, ss);
    forall i | 0 <= i < |ss|
      ensures UpBytes(ss)[i] <= t.upWindow && UpBytes(ss)[i] <= Shares(t.dataSize, t.streams)[i]
    {
      assert Inv(t.Stream(i), ss[i]);
      assert ServerBytes(ss)[i] + UpBytes(ss)[i] == Shares(t.dataSize, t.streams)[i];
    }
  }

  lemma LeavingFits(t: Test, run: seq<World>, events: seq<Event>, k: nat)
    requires t.streams > 0 && IsRun(t, run, events) && k <= |events| && ClientsDone(run[k].streams)
    ensures Fits(t, UpBytes(run[k].streams))
    ensures Sum(ServerBytes(run[k].streams)) + Sum(UpBytes(run[k].streams)) == t.dataSize
  {
    EveryStateConserves(t, run, events, k);
    ClientsDoneTotals(t, run, events, k);
    UnreadFits(t, run[k].streams);
  }

  /**
    Exactly which bytes may be missing, stream by stream, when the client reports: no more
    than the stream's share and window hold, and in all no more than the connection's window.
  */
  lemma UnreadIff(t: Test, left: seq<nat>)
    requires t.Valid()
    ensures (exists run, events, k :: ReportsUnread(t, run, events, k, left)) <==> Fits(t, left)
  {
    if Fits(t, left) {
      var run, events := LeavingIsPossible(t, left);
      assert ReportsUnread(t, run, events, |events|, left);
    }
    forall run, events, k: nat | ReportsUnread(t, run, events, k, left) ensures Fits(t, left) {
      LeavingFits(t, run, events, k);
    }
  }

  ghost predicate ReportsUnread(t: Test, run: seq<World>, events: seq<Event>, k: nat, left: seq<nat>)
    requires t.streams > 0
  {
    IsRun(t, run, events) && k <= |events| && ClientsDone(run[k].streams) && UpBytes(run[k].streams) == left
  }

  /** What each stream can hold on the way up of its share. */
  function Holds(t: Test): (s: seq<nat>)
    requires t.streams > 0
    ensures |s| == t.streams
  {
    seq(t.streams, i requires 0 <= i < t.streams => Min(Shares(t.dataSize, t.streams)[i], t.upWindow))
  }

  lemma {:induction false} Spread(caps: seq<nat>, m: nat) returns (left: seq<nat>)
    requires m <= Sum(caps)
    ensures |left| == |caps| && Sum(left) == m && forall i :: 0 <= i < |caps| ==> left[i] <= caps[i]
  {
    if caps == [] {
      left := [];
    } else {
      var first := Min(m, caps[0]);
      var rest := Spread(caps[1..], m - first);
      left := [first] + rest;
      assert left[1..] == rest;
    }
  }

  /**
    The servers may be short of `m` bytes when the client reports success exactly when `m` bytes
    fit on the way up; and then they may stay short of them, because the client closes.
  */
  lemma ServersMayBeShortIff(t: Test, m: nat)
    requires t.Valid()
    ensures (exists run, events, k :: ReportsShort(t, run, events, k, m)) <==> m <= t.connectionUp && m <= Sum(Holds(t))
    ensures (exists run, events :: EndsShort(t, run, events, m)) <==> m <= t.connectionUp && m <= Sum(Holds(t))
  {
    if m <= t.connectionUp && m <= Sum(Holds(t)) {
      var left := Spread(Holds(t), m);
      var run, events := LeavingIsPossible(t, left);
      assert ReportsShort(t, run, events, |events|, m);
    }
    forall run: seq<World>, events: seq<Event>, k: nat | ReportsShort(t, run, events, k, m) ensures m <= t.connectionUp && m <= Sum(Holds(t)) {
      LeavingFits(t, run, events, k);
      SumAtMost(UpBytes(run[k].streams), Holds(t));
    }
  }

  /** The client reports success, although the servers do not have everything. */
  ghost predicate ReportsTooSoon(t: Test, run: seq<World>, events: seq<Event>, k: nat)
    requires t.streams > 0
  {
    && IsRun(t, run, events) && k <= |events| && ClientsDone(run[k].streams)
    && Sum(ServerBytes(run[k].streams)) < t.dataSize
  }

  /** That can happen exactly when there is data at all, whatever the windows and streams. */
  lemma ReportsTooSoonIff(t: Test)
    requires t.Valid()
    ensures (exists run, events, k :: ReportsTooSoon(t, run, events, k)) <==> t.dataSize > 0
    ensures (exists run, events :: ReportsTooSoon(t, run, events, |events|) && Over(run[|events|])) <==> t.dataSize > 0
  {
    if t.dataSize > 0 {
      LastShareIsPositive(t);
      SumZeroIff(Holds(t));
      ServersMayBeShortIff(t, 1);
      var run, events :| EndsShort(t, run, events, 1);
      assert ReportsTooSoon(t, run, events, |events|);
    }
  }

  lemma LastShareIsPositive(t: Test)
    requires t.Valid() && t.dataSize > 0
    ensures Holds(t)[t.streams - 1] > 0
  {
    var shares := Shares(t.dataSize, t.streams);
    SharesPartition(t.dataSize, t.streams);
    if shares[t.streams - 1] == 0 {
      SumZeroIff(shares);
    }
  }

  /** Everything may be missed exactly when all of it fits the windows at once. */
  lemma EverythingMayBeMissedIff(t: Test)
    requires t.Valid()
    ensures (exists run, events :: EndsShort(t, run, events, t.dataSize))
            <==> t.dataSize <= t.connectionUp && forall i :: 0 <= i < t.streams ==> Shares(t.dataSize, t.streams)[i] <= t.upWindow
  {
    var shares := Shares(t.dataSize, t.streams);
    ServersMayBeShortIff(t, t.dataSize);
    SharesPartition(t.dataSize, t.streams);
    if forall i :: 0 <= i < t.streams ==> shares[i] <= t.upWindow {
      assert Holds(t) == shares;
    }
    if i: nat :| i < t.streams && shares[i] > t.upWindow {
      SumUpdate(shares, i, t.upWindow);
      SumAtMost(Holds(t), shares[i := t.upWindow]);
    }
  }
}
