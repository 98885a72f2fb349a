/**
  The writer that reports its running total through a channel with a single slot. A total
  that finds the slot taken, or the receiver gone, is dropped.
*/
module Progress {
  import opened Postcard

  const U64_MAX := 0xFFFF_FFFF_FFFF_FFFF

  datatype PollResult = Pending | Written(n: nat) | IoError

  function SaturatingAdd(a: U64, n: nat): U64 {
    if a + n > U64_MAX then U64_MAX else a + n
  }

  /** The writer's total, the channel, and what has gone through it. */
  datatype View = View(written: U64, queued: Option<U64>, open: bool, totals: seq<U64>, received: seq<U64>)

  datatype Event = Wrote(res: PollResult) | Receive | DropReceiver

  const Initial := View(0, None, true, [], [])

  function Apply(v: View, e: Event): View {
    match e
    case Wrote(Written(n)) =>
      var total := SaturatingAdd(v.written, n);
      v.(written := total, totals := v.totals + [total],
         queued := if v.open && v.queued.None? then Some(total) else v.queued)
    case Wrote(_) => v
    case Receive =>
      if v.queued.Some? then v.(queued := None, received := v.received + [v.queued.value]) else v
    case DropReceiver => v.(open := false, queued := None)
  }

  function Run(events: seq<Event>): View {
    if events == [] then Initial else Apply(Run(events[..|events| - 1]), events[|events| - 1])
  }

  /** What has been received, followed by what is queued. */
  function Delivered(v: View): seq<U64> {
    v.received + match v.queued case Some(t) => [t] case None => []
  }

  ghost predicate IsSubsequence(a: seq<U64>, b: seq<U64>) {
    if a == [] then true
    else if b == [] then false
    else
      || IsSubsequence(a, b[..|b| - 1])
      || (a[|a| - 1] == b[|b| - 1] && IsSubsequence(a[..|a| - 1], b[..|b| - 1]))
  }

  ghost predicate NonDecreasing(s: seq<U64>) {
    forall i, j :: 0 <= i < j < |s| ==> s[i] <= s[j]
  }

  /** The bytes the inner writer has accepted. */
  function Accepted(events: seq<Event>): nat {
    if events == [] then 0
    else
      Accepted(events[..|events| - 1])
      + match events[|events| - 1] case Wrote(Written(n)) => n case _ => 0
  }

  lemma Extend(a: seq<U64>, b: seq<U64>, x: U64)
    requires IsSubsequence(a, b)
    ensures IsSubsequence(a, b + [x]) && IsSubsequence(a + [x], b + [x])
  {
    assert (b + [x])[..|b|] == b && (a + [x])[..|a|] == a;
  }

  lemma {:induction false} DropLast(a: seq<U64>, x: U64, b: seq<U64>)
    requires IsSubsequence(a + [x], b)
    ensures IsSubsequence(a, b)
  {
    assert (a + [x])[..|a|] == a;
    if a == [] {
    } else {
      var front := b[..|b| - 1];
      if IsSubsequence(a + [x], front) { DropLast(a, x, front); }
    }
  }

  ghost predicate AtMost(s: seq<U64>, bound: U64) {
    forall i :: 0 <= i < |s| ==> s[i] <= bound
  }

  /** What is delivered is, in order, some of the running totals, and none exceeds the latest. */
  ghost predicate Truthful(v: View) {
    && IsSubsequence(Delivered(v), v.totals)
    && NonDecreasing(v.totals) && AtMost(v.totals, v.written)
    && NonDecreasing(Delivered(v)) && AtMost(Delivered(v), v.written)
  }

  lemma ExtendOrdered(s: seq<U64>, bound: U64, x: U64)
    requires NonDecreasing(s) && AtMost(s, bound) && bound <= x
    ensures AtMost(s, x) && NonDecreasing(s + [x]) && AtMost(s + [x], x)
  {
  }

  lemma WriteIsTruthful(v: View, n: nat)
    requires Truthful(v)
    ensures Truthful(Apply(v, Wrote(Written(n))))
  {
    var d, total := Delivered(v), SaturatingAdd(v.written, n);
    Extend(d, v.totals, total);
    ExtendOrdered(v.totals, v.written, total);
    ExtendOrdered(d, v.written, total);
    DeliveredAfterWrite(v, n);
  }

  lemma DeliveredAfterWrite(v: View, n: nat)
    ensures var v' := Apply(v, Wrote(Written(n)));
            Delivered(v') == if v.open && v.queued.None? then Delivered(v) + [v'.written] else Delivered(v)
  {
  }

  lemma ChannelStepIsTruthful(v: View, e: Event)
    requires Truthful(v) && (e.Receive? || e.DropReceiver?)
    ensures Truthful(Apply(v, e))
  {
    var v' := Apply(v, e);
    if e.Receive? {
      assert Delivered(v') == Delivered(v);
    } else {
      if v.queued.Some? { DropLast(v.received, v.queued.value, v.totals); }
      assert Delivered(v') == v.received == Delivered(v)[..|v.received|];
    }
  }

  /** Over every run of writes, receives and even a dropped receiver. */
  lemma {:induction false} UpdatesAreRunningTotals(events: seq<Event>)
    ensures Truthful(Run(events))
    ensures Run(events).written == SaturatingAdd(0, Accepted(events))
  {
    if events == [] {
    } else {
      var v, e := Run(events[..|events| - 1]), events[|events| - 1];
      UpdatesAreRunningTotals(events[..|events| - 1]);
      match e {
        case Wrote(Written(n)) => WriteIsTruthful(v, n);
        case Wrote(_) =>
        case _ => ChannelStepIsTruthful(v, e);
      }
    }
  }

  /** Below 2^64 bytes the writer's total is exactly what the inner writer has accepted, and then it stays at the largest. */
  lemma WrittenIsExact(events: seq<Event>)
    ensures Run(events).written == if Accepted(events) < 0x1_0000_0000_0000_0000 then Accepted(events) else 0xFFFF_FFFF_FFFF_FFFF
  {
    UpdatesAreRunningTotals(events);
  }

  /** The running totals: one for each write that was accepted, of all that was accepted up to then. */
  lemma {:induction false} TotalsAreExact(events: seq<Event>, k: nat)
    requires k < |events| && events[k].Wrote? && events[k].res.Written? && Accepted(events) < 0x1_0000_0000_0000_0000
    ensures Accepted(events[..k + 1]) < 0x1_0000_0000_0000_0000
    ensures Accepted(events[..k + 1]) in Run(events).totals
    ensures |Run(events).totals| == CountWrites(events)
  {
    var front := events[..|events| - 1];
    CountTotals(events);
    if k == |events| - 1 {
      assert events[..k + 1] == events;
      WrittenIsExact(events);
      assert Run(events).totals[|Run(front).totals|] == Run(events).written;
    } else {
      TotalsAreExact(front, k);
      assert front[..k + 1] == events[..k + 1];
    }
  }

  function CountWrites(events: seq<Event>): nat {
    if events == [] then 0
    else
      CountWrites(events[..|events| - 1])
      + if events[|events| - 1].Wrote? && events[|events| - 1].res.Written? then 1 else 0
  }

  lemma {:induction false} CountTotals(events: seq<Event>)
    ensures |Run(events).totals| == CountWrites(events)
  {
    if events == [] {
    } else {
      CountTotals(events[..|events| - 1]);
    }
  }

  ghost predicate NoWrites(events: seq<Event>) {
    forall i :: 0 <= i < |events| && events[i].Wrote? ==> !events[i].res.Written?
  }

  /** The first time that the receiver acts. */
  function FirstReceiverEvent(events: seq<Event>): Option<Event> {
    if events == [] then None
    else
      match FirstReceiverEvent(events[..|events| - 1])
      case Some(e) => Some(e)
      case None => if events[|events| - 1].Wrote? then None else Some(events[|events| - 1])
  }

  /** What the receiver gets between the last write and the end. */
  function LastReceived(v: View, first: Option<Event>): seq<U64> {
    if v.queued.Some? && first == Some(Receive) then [v.queued.value] else []
  }

  lemma {:induction false} AfterLastWrite(before: seq<Event>, after: seq<Event>)
    requires NoWrites(after)
    ensures var v, v', first := Run(before), Run(before + after), FirstReceiverEvent(after);
            && v'.received == v.received + LastReceived(v, first)
            && v'.written == v.written
            && v'.queued == if first.None? then v.queued else None
  {
    if after == [] {
      assert before + after == before;
    } else {
      var front := after[..|after| - 1];
      assert (before + after)[..|before + after| - 1] == before + front;
      assert NoWrites(front);
      AfterLastWrite(before, front);
    }
  }

  /** Whether the last write's total will get through: it found room, and the receiver took it before going away. */
  ghost predicate GetsThrough(atWrite: View, after: seq<Event>) {
    atWrite.open && atWrite.queued.None? && FirstReceiverEvent(after) == Some(Receive)
  }

  /**
    For a whole run: the total of the last write is received, on top of all that was delivered
    before, exactly when the write finds the receiver alive and the slot free and the receiver
    next receives. If the write moved the total, that is whether the total is received at all.
  */
  lemma LastTotalReceivedIff(before: seq<Event>, n: nat, after: seq<Event>)
    requires NoWrites(after)
    ensures var v, w := Run(before), Run(before + [Wrote(Written(n))] + after);
            && (w.received == Delivered(v) + [w.written] <==> GetsThrough(v, after))
            && (w.written > v.written ==> (w.written in w.received <==> GetsThrough(v, after)))
  {
    var v, w := Run(before), Run(before + [Wrote(Written(n))] + after);
    assert (before + [Wrote(Written(n))])[..|before|] == before;
    var u := Run(before + [Wrote(Written(n))]);
    assert u == Apply(v, Wrote(Written(n)));
    AfterLastWrite(before + [Wrote(Written(n))], after);
    UpdatesAreRunningTotals(before);
    var got := LastReceived(u, FirstReceiverEvent(after));
    assert w.received == v.received + got && w.written == u.written;
    if u.written > v.written { EarlierTotals(v, u.written); }
    assert |Delivered(v) + [w.written]| == |v.received| + 1 + if v.queued.Some? then 1 else 0;
    if GetsThrough(v, after) {
      assert Delivered(v) == v.received && got == [w.written];
      assert (v.received + [w.written])[|v.received|] == w.written;
    } else if |got| == 1 && v.queued.None? {
      assert false;
    }
  }

  lemma EarlierTotals(v: View, total: U64)
    requires Truthful(v) && total > v.written
    ensures total !in v.received && v.queued != Some(total)
  {
    assert AtMost(Delivered(v), v.written);
    if v.queued.Some? { assert Delivered(v)[|v.received|] == v.queued.value; }
    forall i | 0 <= i < |v.received| ensures v.received[i] != total { assert Delivered(v)[i] == v.received[i]; }
  }

  /** Two ways to lose the last total: the slot is still taken, or the receiver goes away with the total in it. */
  lemma LastTotalMayBeDropped()
    ensures var v := Run([Wrote(Written(1)), Wrote(Written(1)), Receive]);
            v.written == 2 && v.open && v.received == [1]
    ensures var v := Run([Wrote(Written(1)), DropReceiver]);
            v.written == 1 && v.received == []
  {
    var w := Wrote(Written(1));
    assert [w, w, Receive][..2] == [w, w] && [w, w][..1] == [w] && [w][..0] == [];
    assert Run([w]) == Apply(Initial, w);
    assert Run([w, w]) == Apply(Run([w]), w);
    assert Run([w, w, Receive]) == Apply(Run([w, w]), Receive);
    assert [w, DropReceiver][..1] == [w];
    assert Run([w, DropReceiver]) == Apply(Run([w]), DropReceiver);
  }

  // The writers

  /** Some writer, whose results are decided elsewhere. */
  class InnerWriter {
    var results: seq<PollResult>
    var calls: seq<seq<Byte>>

    constructor (results: seq<PollResult>)
      ensures this.results == results && calls == []
    {
      this.results := results;
      this.calls := [];
    }

    method PollWrite(buf: seq<Byte>) returns (res: PollResult)
      modifies this
      ensures calls == old(calls) + [buf]
      ensures old(results) == [] ==> res == Pending && results == []
      ensures old(results) != [] ==> res == old(results)[0] && results == old(results)[1..]
    {
      calls := calls + [buf];
      if results == [] {
        return Pending;
      }
      res := results[0];
      results := results[1..];
    }
  }

  class TrackingWriter {
    const inner: InnerWriter
    var written: U64

    constructor (inner: InnerWriter)
      ensures this.inner == inner && written == 0
    {
      this.inner := inner;
      this.written := 0;
    }

    method PollWrite(buf: seq<Byte>) returns (res: PollResult)
      modifies this, inner
      ensures inner.calls == old(inner.calls) + [buf]
      ensures old(inner.results) == [] ==> res == Pending && inner.results == []
      ensures old(inner.results) != [] ==> res == old(inner.results)[0] && inner.results == old(inner.results)[1..]
      ensures written == if res.Written? then SaturatingAdd(old(written), res.n) else old(written)
    {
      res := inner.PollWrite(buf);
      if res.Written? {
        written := SaturatingAdd(written, res.n);
      }
    }
  }

  /** A channel with one slot, seen from both ends. */
  class Slot {
    var queued: Option<U64>
    var open: bool
    ghost var received: seq<U64>

    constructor ()
      ensures queued == None && open && received == []
    {
      queued, open, received := None, true, [];
    }

    method TrySend(v: U64)
      modifies this
      ensures queued == if old(open) && old(queued).None? then Some(v) else old(queued)
      ensures open == old(open) && received == old(received)
    {
      if open && queued.None? {
        queued := Some(v);
      }
    }

    method Receive() returns (v: Option<U64>)
      modifies this
      ensures v == old(queued) && queued == None && open == old(open)
      ensures received == old(received) + if v.Some? then [v.value] else []
    {
      v := queued;
      if v.Some? {
        received := received + [v.value];
      }
      queued := None;
    }

    method Close()
      modifies this
      ensures !open && queued == None && received == old(received)
    {
      open, queued := false, None;
    }
  }

  class ProgressWriter {
    const inner: TrackingWriter
    const sender: Slot
    ghost var totals: seq<U64>

    constructor (inner: InnerWriter)
      ensures this.inner.inner == inner && fresh(this.inner) && fresh(sender)
      ensures Now() == Initial
    {
      this.inner := new TrackingWriter(inner);
      this.sender := new Slot();
      this.totals := [];
    }

    ghost function Now(): View
      reads this, inner, sender
    {
      View(inner.written, sender.queued, sender.open, totals, sender.received)
    }

    /** The inner writer sees the same call and gives the same result as without progress. */
    method PollWrite(buf: seq<Byte>) returns (res: PollResult)
      modifies this, inner, inner.inner, sender
      ensures inner.inner.calls == old(inner.inner.calls) + [buf]
      ensures old(inner.inner.results) == [] ==> res == Pending && inner.inner.results == []
      ensures old(inner.inner.results) != [] ==>
                res == old(inner.inner.results)[0] && inner.inner.results == old(inner.inner.results)[1..]
      ensures Now() == Apply(old(Now()), Wrote(res))
    {
      res := inner.PollWrite(buf);
      if res.Written? {
        totals := totals + [inner.written];
        sender.TrySend(inner.written);
      }
    }
  }

  // The receiving end, as the writer's view sees it

  method ReceiveUpdate(slot: Slot, ghost writer: ProgressWriter) returns (position: Option<U64>)
    requires slot == writer.sender
    modifies slot
    ensures writer.Now() == Apply(old(writer.Now()), Receive)
    ensures position == old(slot.queued)
  {
    position := slot.Receive();
  }

  method DropReceivingEnd(slot: Slot, ghost writer: ProgressWriter)
    requires slot == writer.sender
    modifies slot
    ensures writer.Now() == Apply(old(writer.Now()), DropReceiver)
  {
    slot.Close();
  }
}
